/** The few Python `str` operations the modelled code relies on, on
    `seq<char>`: `startswith`, the `in` operator, `split`/`join`,
    `strip() != ""`, slicing `s[:n]`, `str(int)` and `'c' * n`. */
module Text {

  /** `s.startswith(prefix)` */
  predicate StartsWith(s: string, prefix: string) {
    |prefix| <= |s| && s[..|prefix|] == prefix
  }

  /** `sub in s`, scanned left to right. */
  predicate Contains(s: string, sub: string)
    decreases |s|
  {
    StartsWith(s, sub) || (|s| > 0 && Contains(s[1..], sub))
  }

  /** `sub` occurs in `s` starting at index `i`. */
  predicate OccursAt(s: string, sub: string, i: int) {
    0 <= i <= |s| - |sub| && s[i..i + |sub|] == sub
  }

  /** `sub in s` holds exactly when `sub` occurs at some index of `s`. */
  lemma {:induction false} ContainsIffOccurs(s: string, sub: string)
    ensures Contains(s, sub) <==> exists i :: OccursAt(s, sub, i)
    decreases |s|
  {
    if |s| > 0 {
      ContainsIffOccurs(s[1..], sub);
      if StartsWith(s, sub) {
        assert OccursAt(s, sub, 0);
      }
      if Contains(s[1..], sub) {
        var i :| OccursAt(s[1..], sub, i);
        assert OccursAt(s, sub, i + 1);
      }
      if exists i :: OccursAt(s, sub, i) {
        var i :| OccursAt(s, sub, i);
        if i > 0 {
          assert OccursAt(s[1..], sub, i - 1);
        } else {
          assert StartsWith(s, sub);
        }
      }
    } else {
      if exists i :: OccursAt(s, sub, i) {
        var i :| OccursAt(s, sub, i);
        assert StartsWith(s, sub);
      }
      if Contains(s, sub) {
        assert OccursAt(s, sub, 0);
      }
    }
  }

  /** Only a string at least as long as `sub` can contain it. */
  lemma {:induction false} ContainsIsNoLonger(s: string, sub: string)
    requires Contains(s, sub)
    ensures |sub| <= |s|
    decreases |s|
  {
    if !StartsWith(s, sub) {
      ContainsIsNoLonger(s[1..], sub);
    }
  }

  /** A string whose first character differs from that of `sub` contains
      `sub` only if its tail does. */
  lemma NotContainsStep(s: string, sub: string)
    requires |s| > 0 && |sub| > 0 && s[0] != sub[0]
    requires !Contains(s[1..], sub)
    ensures !Contains(s, sub)
  {
    if |sub| <= |s| {
      assert s[..|sub|][0] == s[0];
    }
  }

  /** `s.split(sep)` for a non-empty separator: the pieces between the
      leftmost non-overlapping occurrences of `sep`. */
  function Split(s: string, sep: string): (parts: seq<string>)
    requires |sep| > 0
    ensures |parts| >= 1
    decreases |s|
  {
    if |s| < |sep| then [s]
    else if s[..|sep|] == sep then [""] + Split(s[|sep|..], sep)
    else
      var rest := Split(s[1..], sep);
      [[s[0]] + rest[0]] + rest[1..]
  }

  /** `sep.join(parts)` */
  function Join(parts: seq<string>, sep: string): string
    requires |parts| >= 1
  {
    if |parts| == 1 then parts[0] else parts[0] + sep + Join(parts[1..], sep)
  }

  /** Splitting loses nothing: joining the pieces with the separator gives
      back the input. */
  lemma {:induction false} JoinSplit(s: string, sep: string)
    requires |sep| > 0
    ensures Join(Split(s, sep), sep) == s
    decreases |s|
  {
    if |s| < |sep| {
    } else if s[..|sep|] == sep {
      JoinSplit(s[|sep|..], sep);
      JoinAfterEmpty(Split(s[|sep|..], sep), sep);
      assert s == sep + s[|sep|..];
    } else {
      JoinSplit(s[1..], sep);
      JoinExtendsFirst(s[0], Split(s[1..], sep), sep);
      assert s == [s[0]] + s[1..];
    }
  }

  /** An empty first piece leaves just the separator in front. */
  lemma JoinAfterEmpty(parts: seq<string>, sep: string)
    requires |parts| >= 1
    ensures Join([""] + parts, sep) == sep + Join(parts, sep)
  {
    assert ([""] + parts)[1..] == parts;
  }

  /** Putting a character in front of the first piece puts it in front of
      the joined string. */
  lemma JoinExtendsFirst(c: char, parts: seq<string>, sep: string)
    requires |parts| >= 1
    ensures Join([[c] + parts[0]] + parts[1..], sep) == [c] + Join(parts, sep)
  {
    var longer := [[c] + parts[0]] + parts[1..];
    assert longer[0] == [c] + parts[0] && longer[1..] == parts[1..];
    if |parts| > 1 {
      assert [c] + parts[0] + sep + Join(parts[1..], sep) == [c] + (parts[0] + sep + Join(parts[1..], sep));
    }
  }

  /** No piece of a split contains the separator. */
  lemma {:induction false} SplitPiecesAreFree(s: string, sep: string)
    requires |sep| > 0
    ensures forall k :: 0 <= k < |Split(s, sep)| ==> !Contains(Split(s, sep)[k], sep)
    decreases |s|
  {
    var parts := Split(s, sep);
    if |s| < |sep| {
      if Contains(s, sep) { ContainsIsNoLonger(s, sep); }
    } else if s[..|sep|] == sep {
      SplitPiecesAreFree(s[|sep|..], sep);
      assert !Contains("", sep);
      assert forall k :: 1 <= k < |parts| ==> parts[k] == Split(s[|sep|..], sep)[k - 1];
    } else {
      var rest := Split(s[1..], sep);
      SplitPiecesAreFree(s[1..], sep);
      assert forall k :: 1 <= k < |parts| ==> parts[k] == rest[k];
      JoinSplit(s[1..], sep);
      FirstPieceIsPrefix(rest, sep);
      PrefixStaysFree(s, rest[0], sep);
    }
  }

  /** No occurrence of `sep` starts inside a piece that `sep` follows. */
  predicate CutsLeftmost(parts: seq<string>, sep: string)
    requires |sep| > 0
  {
    forall i :: 0 <= i < |parts| - 1 ==> !Contains(parts[i] + sep[..|sep| - 1], sep)
  }

  /** The cuts are at the leftmost occurrences, so "\n\n\n" splits at
      "\n\n" into "" and "\n", never into "\n" and "". */
  lemma {:induction false} SplitCutsLeftmost(s: string, sep: string)
    requires |sep| > 0
    ensures CutsLeftmost(Split(s, sep), sep)
    decreases |s|
  {
    var short := sep[..|sep| - 1];
    if |s| < |sep| {
    } else if s[..|sep|] == sep {
      SplitCutsLeftmost(s[|sep|..], sep);
      assert "" + short == short;
      if Contains(short, sep) { ContainsIsNoLonger(short, sep); }
      CutsLeftmostCons("", Split(s[|sep|..], sep), sep);
    } else {
      var rest := Split(s[1..], sep);
      SplitCutsLeftmost(s[1..], sep);
      if |rest| > 1 {
        JoinSplit(s[1..], sep);
        FirstCutLeftmost(s, rest, sep);
      }
      CutsLeftmostNewHead([s[0]] + rest[0], rest, sep);
    }
  }

  /** A string that does not start with `sep`, followed by pieces cut at
      the leftmost occurrences: no occurrence starts in the first piece
      extended by that string's first character. */
  lemma FirstCutLeftmost(s: string, rest: seq<string>, sep: string)
    requires |sep| > 0 && |s| > 0 && !StartsWith(s, sep)
    requires |rest| > 1 && Join(rest, sep) == s[1..]
    requires !Contains(rest[0] + sep[..|sep| - 1], sep)
    ensures !Contains([s[0]] + rest[0] + sep[..|sep| - 1], sep)
  {
    var t := rest[0] + sep[..|sep| - 1];
    JoinHead(rest, sep);
    assert t == s[1..][..|t|];
    PrefixStaysFree(s, t, sep);
    assert [s[0]] + rest[0] + sep[..|sep| - 1] == [s[0]] + t;
  }

  lemma CutsLeftmostCons(p: string, rest: seq<string>, sep: string)
    requires |sep| > 0 && |rest| >= 1
    requires CutsLeftmost(rest, sep) && !Contains(p + sep[..|sep| - 1], sep)
    ensures CutsLeftmost([p] + rest, sep)
  {
    var parts := [p] + rest;
    forall i | 1 <= i < |parts| - 1 ensures !Contains(parts[i] + sep[..|sep| - 1], sep) {
      assert parts[i] == rest[i - 1];
    }
  }

  lemma CutsLeftmostNewHead(p: string, rest: seq<string>, sep: string)
    requires |sep| > 0 && |rest| >= 1
    requires CutsLeftmost(rest, sep) && (|rest| > 1 ==> !Contains(p + sep[..|sep| - 1], sep))
    ensures CutsLeftmost([p] + rest[1..], sep)
  {
    var parts := [p] + rest[1..];
    forall i | 1 <= i < |parts| - 1 ensures !Contains(parts[i] + sep[..|sep| - 1], sep) {
      assert parts[i] == rest[i];
    }
  }

  /** With more than one piece, the join starts with the first piece and
      the separator. */
  lemma JoinHead(parts: seq<string>, sep: string)
    requires |parts| > 1
    ensures |parts[0]| + |sep| <= |Join(parts, sep)|
    ensures Join(parts, sep)[..|parts[0]| + |sep|] == parts[0] + sep
  {
    assert Join(parts, sep) == (parts[0] + sep) + Join(parts[1..], sep);
  }

  /** If `s` does not start with `sep`, then a prefix `s[0] + t` of `s`
      contains `sep` only if `t` does. */
  lemma PrefixStaysFree(s: string, t: string, sep: string)
    requires |sep| > 0 && |s| > 0
    requires !StartsWith(s, sep) && !Contains(t, sep)
    requires |t| <= |s| - 1 && t == s[1..][..|t|]
    ensures !Contains([s[0]] + t, sep)
  {
    var first := [s[0]] + t;
    assert first == s[..|first|];
    assert first[1..] == t;
  }

  lemma FirstPieceIsPrefix(parts: seq<string>, sep: string)
    requires |parts| >= 1
    ensures |parts[0]| <= |Join(parts, sep)|
    ensures Join(parts, sep)[..|parts[0]|] == parts[0]
  {
  }

  /** A string without the separator splits into itself alone. */
  lemma {:induction false} SplitWithoutSeparator(s: string, sep: string)
    requires |sep| > 0
    requires !Contains(s, sep)
    ensures Split(s, sep) == [s]
    decreases |s|
  {
    if |s| >= |sep| {
      assert !StartsWith(s, sep);
      SplitWithoutSeparator(s[1..], sep);
      assert [s[0]] + s[1..] == s;
    }
  }

  /** Python's `str.isspace()` for one character. */
  predicate IsSpace(c: char) {
    c == ' ' || ('\t' <= c <= '\r') || ('\U{1C}' <= c <= '\U{1F}')
    || c == '\U{85}' || c == '\U{A0}' || c == '\U{1680}'
    || ('\U{2000}' <= c <= '\U{200A}') || c == '\U{2028}' || c == '\U{2029}'
    || c == '\U{202F}' || c == '\U{205F}' || c == '\U{3000}'
  }

  /** `s.strip() == ""`: nothing but whitespace. */
  predicate IsBlank(s: string) {
    forall i :: 0 <= i < |s| ==> IsSpace(s[i])
  }

  /** `s[:n]` */
  function Take(s: string, n: nat): (r: string)
    ensures |r| == if n < |s| then n else |s|
    ensures r <= s
  {
    if n < |s| then s[..n] else s
  }

  /** `c * n` */
  function Repeat(c: char, n: nat): (r: string)
    ensures |r| == n && forall i :: 0 <= i < n ==> r[i] == c
  {
    if n == 0 then "" else [c] + Repeat(c, n - 1)
  }

  /** `str(n)` for a non-negative integer. */
  function Decimal(n: nat): (r: string)
    decreases n
  {
    if n < 10 then [DigitChar(n)] else Decimal(n / 10) + [DigitChar(n % 10)]
  }

  function DigitChar(d: nat): char
    requires d < 10
  {
    '0' + d as char
  }

  /** `int(s)` for a string of decimal digits. */
  function DecimalValue(s: string): nat
    requires forall i :: 0 <= i < |s| ==> '0' <= s[i] <= '9'
  {
    if s == [] then 0
    else 10 * DecimalValue(s[..|s| - 1]) + (s[|s| - 1] - '0') as nat
  }

  /** `str(n)` is a non-empty run of digits that reads back as `n`, with
      no leading zero. */
  lemma {:induction false} DecimalRoundTrip(n: nat)
    ensures |Decimal(n)| >= 1
    ensures forall i :: 0 <= i < |Decimal(n)| ==> '0' <= Decimal(n)[i] <= '9'
    ensures DecimalValue(Decimal(n)) == n
    ensures n > 0 ==> Decimal(n)[0] != '0'
    decreases n
  {
    if n >= 10 {
      DecimalRoundTrip(n / 10);
      var s := Decimal(n);
      assert s[..|s| - 1] == Decimal(n / 10);
      assert s[0] == Decimal(n / 10)[0];
    }
  }
}
