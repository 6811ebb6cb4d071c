/** The text primitives of scripts/merge-coverage.js: splitting, joining, and decimal numbers. */
module LcovText {
  import opened Wrappers
  import opened JsText

  // ---- splitting and joining ----

  /** s.split(c): always at least one piece. */
  function Split(s: string, c: char): (pieces: seq<string>)
    ensures |pieces| > 0
  {
    if s == "" then [""]
    else
      var rest := Split(s[1..], c);
      if s[0] == c then [""] + rest else [[s[0]] + rest[0]] + rest[1..]
  }

  /** pieces.join(c). */
  function Join(pieces: seq<string>, c: char): string {
    if pieces == [] then "" else
    if |pieces| == 1 then pieces[0] else pieces[0] + [c] + Join(pieces[1..], c)
  }

  lemma {:induction false} JoinSplit(s: string, c: char)
    ensures Join(Split(s, c), c) == s
    decreases |s|
  {
    if s != "" {
      var rest := Split(s[1..], c);
      JoinSplit(s[1..], c);
      assert s == [s[0]] + s[1..];
      if s[0] == c {
        assert ([""] + rest)[1..] == rest;
      } else {
        var pieces := [[s[0]] + rest[0]] + rest[1..];
        assert pieces[1..] == rest[1..];
        if |rest| > 1 {
          assert Join(pieces, c) == [s[0]] + (rest[0] + [c] + Join(rest[1..], c));
        }
      }
    }
  }

  lemma {:induction false} SplitFirst(a: string, c: char, b: string)
    requires c !in a
    ensures Split(a + [c] + b, c) == [a] + Split(b, c)
    decreases |a|
  {
    var s := a + [c] + b;
    if a == "" {
      assert s[1..] == b;
    } else {
      assert s[1..] == a[1..] + [c] + b;
      SplitFirst(a[1..], c, b);
      assert a == [a[0]] + a[1..];
      assert Split(s, c) == [[s[0]] + a[1..]] + ([a[1..]] + Split(b, c))[1..];
    }
  }

  lemma {:induction false} SplitNone(s: string, c: char)
    requires c !in s
    ensures Split(s, c) == [s]
    decreases |s|
  {
    if s != "" {
      SplitNone(s[1..], c);
      assert s == [s[0]] + s[1..];
    }
  }

  lemma {:induction false} SplitPieces(s: string, c: char)
    ensures forall i :: 0 <= i < |Split(s, c)| ==> c !in Split(s, c)[i]
    decreases |s|
  {
    if s != "" {
      var rest := Split(s[1..], c);
      SplitPieces(s[1..], c);
      forall i | 0 <= i < |Split(s, c)| ensures c !in Split(s, c)[i] {
        if s[0] == c && i > 0 { assert Split(s, c)[i] == rest[i - 1]; }
        if s[0] != c && i > 0 { assert Split(s, c)[i] == rest[i]; }
      }
    }
  }

  predicate Free(pieces: seq<string>, c: char) {
    forall i :: 0 <= i < |pieces| ==> c !in pieces[i]
  }

  lemma {:induction false} SplitJoin(pieces: seq<string>, c: char)
    requires pieces != [] && Free(pieces, c)
    ensures Split(Join(pieces, c), c) == pieces
    decreases |pieces|
  {
    if |pieces| == 1 {
      SplitNone(pieces[0], c);
    } else {
      assert Free(pieces[1..], c) by { assert forall i :: 0 <= i < |pieces| - 1 ==> pieces[1..][i] == pieces[i + 1]; }
      SplitJoin(pieces[1..], c);
      SplitFirst(pieces[0], c, Join(pieces[1..], c));
    }
  }

  // ---- lines ----

  function DropCr(s: string): string {
    if s != "" && s[|s| - 1] == '\r' then s[..|s| - 1] else s
  }

  /** Every piece but the last was followed by a line feed, which takes one carriage return with it. */
  function DropCrs(pieces: seq<string>): (r: seq<string>)
    ensures |r| == |pieces|
  {
    if |pieces| <= 1 then pieces else [DropCr(pieces[0])] + DropCrs(pieces[1..])
  }

  lemma {:induction false} DropCrsAt(pieces: seq<string>, i: nat)
    requires i < |pieces|
    ensures DropCrs(pieces)[i] == if i < |pieces| - 1 then DropCr(pieces[i]) else pieces[i]
    decreases i
  {
    if i > 0 { DropCrsAt(pieces[1..], i - 1); }
  }

  /** content.split(/\r?\n/). */
  function SplitLines(content: string): seq<string> {
    DropCrs(Split(content, '\n'))
  }

  /** Joining lines and splitting again drops one carriage return at the end of every line but the last. */
  lemma LinesRoundTrip(lines: seq<string>)
    requires lines != [] && Free(lines, '\n')
    ensures SplitLines(Join(lines, '\n')) == DropCrs(lines)
  {
    SplitJoin(lines, '\n');
  }

  lemma JoinInjective(a: seq<string>, b: seq<string>)
    requires a != [] && b != [] && Free(a, '\n') && Free(b, '\n')
    requires Join(a, '\n') == Join(b, '\n')
    ensures a == b
  {
    SplitJoin(a, '\n');
    SplitJoin(b, '\n');
  }

  // ---- decimal numbers ----

  predicate IsDigit(c: char) { '0' <= c <= '9' }

  function DigitChar(d: nat): (c: char)
    requires d < 10
    ensures IsDigit(c)
  {
    '0' + d as char
  }

  /** `${n}` for n >= 0. */
  function NatText(n: nat): (s: string)
    ensures |s| > 0 && forall i :: 0 <= i < |s| ==> IsDigit(s[i])
  {
    if n < 10 then [DigitChar(n)] else NatText(n / 10) + [DigitChar(n % 10)]
  }

  function Decimal(n: int): string {
    if n < 0 then "-" + NatText(-n) else NatText(n)
  }

  function SkipSpace(s: string): string {
    if s != "" && IsSpace(s[0]) then SkipSpace(s[1..]) else s
  }

  function DigitPrefix(s: string): (d: string)
    ensures forall i :: 0 <= i < |d| ==> IsDigit(d[i])
  {
    if s != "" && IsDigit(s[0]) then [s[0]] + DigitPrefix(s[1..]) else ""
  }

  function Value(digits: string): nat
    requires forall i :: 0 <= i < |digits| ==> IsDigit(digits[i])
  {
    if digits == "" then 0 else
    var last := digits[|digits| - 1];
    assert IsDigit(last);
    10 * Value(digits[..|digits| - 1]) + (last as int - '0' as int)
  }

  /** Number.parseInt(s, 10), with None for NaN: an optional sign and the longest run of digits; the rest is ignored. */
  function ParseInt(s: string): Option<int> {
    var t := SkipSpace(s);
    var negative := t != "" && t[0] == '-';
    var digits := DigitPrefix(if t != "" && t[0] in "+-" then t[1..] else t);
    if digits == "" then None else
    var n: int := Value(digits);
    Some(if negative then -n else n)
  }

  /** parseNumber: NaN counts as 0. */
  function ParseNumber(s: string): int {
    match ParseInt(s) case Some(n) => n case None => 0
  }

  lemma {:induction false} NatTextValue(n: nat)
    ensures Value(NatText(n)) == n
  {
    if n >= 10 {
      NatTextValue(n / 10);
      var d := NatText(n);
      assert d[..|d| - 1] == NatText(n / 10);
    } else {
      assert NatText(n)[..0] == "";
    }
  }

  lemma {:induction false} AllDigits(s: string)
    requires forall i :: 0 <= i < |s| ==> IsDigit(s[i])
    ensures DigitPrefix(s) == s
    decreases |s|
  {
    if s != "" {
      AllDigits(s[1..]);
      assert s == [s[0]] + s[1..];
    }
  }

  /** Printed numbers are read back, negative ones included. */
  lemma NumberRoundTrip(n: int)
    ensures ParseNumber(Decimal(n)) == n
  {
    var t := NatText(if n < 0 then -n else n);
    NatTextValue(if n < 0 then -n else n);
    AllDigits(t);
    assert IsDigit(t[0]);
    if n < 0 {
      assert Decimal(n)[1..] == t;
      assert SkipSpace(Decimal(n)) == Decimal(n);
    } else {
      assert SkipSpace(t) == t;
    }
  }

  lemma {:induction false} SpacesSkipped(space: string, t: string)
    requires (forall i :: 0 <= i < |space| ==> IsSpace(space[i])) && (t != "" ==> !IsSpace(t[0]))
    ensures SkipSpace(space + t) == t
    decreases |space|
  {
    if space == "" {
      assert space + t == t;
    } else {
      SpacesSkipped(space[1..], t);
      assert (space + t)[1..] == space[1..] + t;
    }
  }

  lemma {:induction false} DigitsTaken(digits: string, rest: string)
    requires (forall i :: 0 <= i < |digits| ==> IsDigit(digits[i])) && (rest != "" ==> !IsDigit(rest[0]))
    ensures DigitPrefix(digits + rest) == digits
    decreases |digits|
  {
    if digits == "" {
      assert digits + rest == rest;
    } else {
      DigitsTaken(digits[1..], rest);
      assert (digits + rest)[1..] == digits[1..] + rest && digits == [digits[0]] + digits[1..];
    }
  }

  /** White space before a number is skipped, a sign is heeded, and what follows the digits does not matter. */
  lemma LeadingNumber(space: string, n: nat, rest: string)
    requires (forall i :: 0 <= i < |space| ==> IsSpace(space[i])) && (rest != "" ==> !IsDigit(rest[0]))
    ensures ParseNumber(space + (Decimal(n) + rest)) == n
    ensures ParseNumber(space + ("+" + (Decimal(n) + rest))) == n
    ensures ParseNumber(space + ("-" + (Decimal(n) + rest))) == 0 - n
  {
    var t := Decimal(n);
    NatTextValue(n);
    assert IsDigit(t[0]) && (t + rest)[0] == t[0];
    DigitsTaken(t, rest);
    SpacesSkipped(space, t + rest);
    SpacesSkipped(space, "+" + (t + rest));
    SpacesSkipped(space, "-" + (t + rest));
    assert ("+" + (t + rest))[1..] == t + rest && ("-" + (t + rest))[1..] == t + rest;
    hide SkipSpace, DigitPrefix, Value, NatText;
  }

  /** Text that begins with no number counts as 0, a dash alone included. */
  lemma NoLeadingNumber(space: string, rest: string)
    requires forall i :: 0 <= i < |space| ==> IsSpace(space[i])
    requires rest == "" || (!IsSpace(rest[0]) && !IsDigit(rest[0]) && rest[0] != '-' && rest[0] != '+')
    ensures ParseNumber(space + rest) == 0
    ensures ParseNumber(space + ("-" + rest)) == 0 == ParseNumber(space + ("+" + rest))
  {
    SpacesSkipped(space, rest);
    SpacesSkipped(space, "-" + rest);
    SpacesSkipped(space, "+" + rest);
    assert ("-" + rest)[1..] == rest && ("+" + rest)[1..] == rest;
    assert DigitPrefix(rest) == "";
    hide SkipSpace;
  }

  lemma DecimalChars(n: int)
    ensures Decimal(n) != ""
    ensures forall c :: c in Decimal(n) ==> IsDigit(c) || c == '-'
  {
  }

  // ---- fields ----

  /** parts[i] as a string: what is missing reads "undefined", in template literals and in parseInt alike. */
  function Part(parts: seq<string>, i: nat): string {
    if i < |parts| then parts[i] else "undefined"
  }

  lemma TwoFields(a: string, b: string)
    requires ',' !in a
    ensures Split(a + "," + b, ',')[0] == a
    ensures Join(Split(a + "," + b, ',')[1..], ',') == b
    ensures Split(a + "," + b, ',')[1..] == Split(b, ',')
  {
    SplitFirst(a, ',', b);
    JoinSplit(b, ',');
  }
}
