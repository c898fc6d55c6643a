/** The JavaScript string operations the application relies on: `trim`,
    `includes`, `toLowerCase`, `split` with a string separator, and the
    decimal rendering of a non-negative integer in a template literal.
    A Dafny `char` stands for one UTF-16 code unit of a JavaScript string
    that is not half of a surrogate pair. */
module JsStrings {
  import opened Wrappers

  /** The characters `String.prototype.trim` removes: ECMAScript's WhiteSpace
      and LineTerminator code points. */
  predicate IsJsSpace(c: char)
  {
    || c == '\t' || c == '\n' || c == '\U{000B}' || c == '\U{000C}' || c == '\r'
    || c == ' ' || c == '\U{00A0}' || c == '\U{1680}'
    || ('\U{2000}' <= c <= '\U{200A}')
    || c == '\U{2028}' || c == '\U{2029}' || c == '\U{202F}' || c == '\U{205F}'
    || c == '\U{3000}' || c == '\U{FEFF}'
  }

  /** Every character of `s` is white space: the string is empty or blank. */
  predicate Blank(s: string)
  {
    s == [] || (IsJsSpace(s[0]) && Blank(s[1..]))
  }

  /** A blank string is exactly one whose every character is white space. */
  lemma {:induction false} BlankIffEverySpace(s: string)
    ensures Blank(s) <==> forall i :: 0 <= i < |s| ==> IsJsSpace(s[i])
  {
    if s != [] {
      BlankIffEverySpace(s[1..]);
      assert forall i :: 1 <= i < |s| ==> s[i] == s[1..][i - 1];
    }
  }

  /** `s` with its leading white space removed. */
  function TrimStart(s: string): (r: string)
    ensures |r| <= |s| && r == s[|s| - |r|..]
    ensures forall i :: 0 <= i < |s| - |r| ==> IsJsSpace(s[i])
    ensures r == [] || !IsJsSpace(r[0])
  {
    if |s| > 0 && IsJsSpace(s[0]) then TrimStart(s[1..]) else s
  }

  /** `s` with its trailing white space removed. */
  function TrimEnd(s: string): (r: string)
    ensures |r| <= |s| && r == s[..|r|]
    ensures forall i :: |r| <= i < |s| ==> IsJsSpace(s[i])
    ensures r == [] || !IsJsSpace(r[|r| - 1])
  {
    if |s| > 0 && IsJsSpace(s[|s| - 1]) then TrimEnd(s[..|s| - 1]) else s
  }

  /** `s.trim()`: `s` without its leading and trailing white space; what is
      left neither starts nor ends with white space, and `TrimSurrounded`
      shows it is a slice of `s` with only white space cut away. */
  function Trim(s: string): (r: string)
    ensures |r| <= |s|
    ensures r != [] ==> !IsJsSpace(r[0]) && !IsJsSpace(r[|r| - 1])
  {
    TrimEnd(TrimStart(s))
  }

  /** What trimming keeps is a slice of `s` with only white space around it. */
  lemma TrimSurrounded(s: string)
    ensures exists i :: Surrounded(s, Trim(s), i)
  {
    var front := TrimStart(s);
    SliceOfSuffix(s, front, TrimEnd(front));
    assert Surrounded(s, Trim(s), |s| - |front|);
  }

  /** A prefix `t` of a suffix `front` of `s` sits in `s` where `front` starts;
      when `front` starts after white space only and `t` is followed in `front`
      by white space only, `t` has only white space around it in `s`. */
  lemma SliceOfSuffix(s: string, front: string, t: string)
    requires |front| <= |s| && front == s[|s| - |front|..]
    requires |t| <= |front| && t == front[..|t|]
    requires forall k :: 0 <= k < |s| - |front| ==> IsJsSpace(s[k])
    requires forall k :: |t| <= k < |front| ==> IsJsSpace(front[k])
    ensures Surrounded(s, t, |s| - |front|)
  {
    var i := |s| - |front|;
    assert t == s[i..i + |t|];
    SpaceAfterSlice(s, front, t);
  }

  /** White space at the end of a suffix of `s` is white space at the end of `s`. */
  lemma SpaceAfterSlice(s: string, front: string, t: string)
    requires |front| <= |s| && front == s[|s| - |front|..]
    requires |t| <= |front|
    requires forall k :: |t| <= k < |front| ==> IsJsSpace(front[k])
    ensures forall k :: |s| - |front| + |t| <= k < |s| ==> IsJsSpace(s[k])
  {
    var i := |s| - |front|;
    forall k | i + |t| <= k < |s| ensures IsJsSpace(s[k]) {
      assert s[k] == front[k - i];
    }
  }

  /** `r` sits at offset `i` of `s`, and everything of `s` before and after it is white space. */
  predicate Surrounded(s: string, r: string, i: nat)
  {
    && i + |r| <= |s| && r == s[i..i + |r|]
    && (forall k :: 0 <= k < i ==> IsJsSpace(s[k]))
    && (forall k :: i + |r| <= k < |s| ==> IsJsSpace(s[k]))
  }

  /** `!s.trim()` holds exactly for the blank strings. */
  lemma TrimEmptyIffBlank(s: string)
    ensures Trim(s) == [] <==> Blank(s)
  {
    var front := TrimStart(s);
    if front != [] {
      assert TrimEnd(front)[0] == front[0];
    }
    TrimStartEmptyIffBlank(s);
  }

  lemma {:induction false} TrimStartEmptyIffBlank(s: string)
    ensures TrimStart(s) == [] <==> Blank(s)
  {
    if |s| > 0 && IsJsSpace(s[0]) {
      TrimStartEmptyIffBlank(s[1..]);
    }
  }

  /** `sub` occurs in `s` starting at index `i`. */
  predicate OccursAt(s: string, sub: string, i: nat)
  {
    i + |sub| <= |s| && s[i..i + |sub|] == sub
  }

  /** `s.includes(sub)`. */
  predicate Contains(s: string, sub: string)
  {
    exists i: nat | i <= |s| :: OccursAt(s, sub, i)
  }

  /** Every string includes the empty string. */
  lemma ContainsEmpty(s: string)
    ensures Contains(s, "")
  {
    assert OccursAt(s, "", 0);
  }

  /** A string includes each of the pieces it is concatenated from. */
  lemma ContainsPiece(a: string, x: string, b: string)
    ensures Contains(a + x + b, x)
    ensures Contains(a + x, x) && Contains(x + b, x)
  {
    assert (a + x + b)[|a|..|a| + |x|] == x;
    assert OccursAt(a + x + b, x, |a|);
    assert OccursAt(a + x, x, |a|);
    assert (x + b)[0..|x|] == x;
    assert OccursAt(x + b, x, 0);
  }

  /** Text that occurs in a string still occurs after more text is appended. */
  lemma ContainsExtend(s: string, sub: string, b: string)
    requires Contains(s, sub)
    ensures Contains(s + b, sub)
  {
    var i: nat :| i <= |s| && OccursAt(s, sub, i);
    assert (s + b)[i..i + |sub|] == s[i..i + |sub|];
    assert OccursAt(s + b, sub, i);
  }

  /** Occurrence is transitive: what occurs in a part occurs in the whole. */
  lemma ContainsTransitive(s: string, mid: string, sub: string)
    requires Contains(s, mid) && Contains(mid, sub)
    ensures Contains(s, sub)
  {
    var i: nat :| i <= |s| && OccursAt(s, mid, i);
    var j: nat :| j <= |mid| && OccursAt(mid, sub, j);
    assert s[i..i + |mid|] == mid;
    forall k | 0 <= k < |sub| ensures s[i + j + k] == sub[k] {
      assert s[i + j + k] == s[i..i + |mid|][j + k] == mid[j + k];
      assert mid[j + k] == mid[j..j + |sub|][k];
    }
    assert s[i + j..i + j + |sub|] == sub;
    assert OccursAt(s, sub, i + j);
  }

  /** `c.toLowerCase()` for one character; only ASCII letters are mapped. */
  function LowerChar(c: char): char
  {
    if 'A' <= c <= 'Z' then (c as int + 32) as char else c
  }

  /** `s.toLowerCase()`, on ASCII letters: each upper-case letter becomes its
      lower-case counterpart and every other character stays. */
  function Lower(s: string): (r: string)
    ensures |r| == |s|
    ensures forall i :: 0 <= i < |s| && 'A' <= s[i] <= 'Z' ==> r[i] == (s[i] as int + 32) as char
    ensures forall i :: 0 <= i < |r| ==> !('A' <= r[i] <= 'Z')
    ensures forall i :: 0 <= i < |s| && !('A' <= s[i] <= 'Z') ==> r[i] == s[i]
  {
    seq(|s|, i requires 0 <= i < |s| => LowerChar(s[i]))
  }

  /** Lower-casing is idempotent. */
  lemma LowerIdempotent(s: string)
    ensures Lower(Lower(s)) == Lower(s)
  {
  }

  /** The first index at or after `from` where `sep` occurs. */
  function IndexFrom(s: string, sep: string, from: nat): (r: Option<nat>)
    requires from <= |s|
    ensures r.Some? ==> from <= r.value <= |s| && OccursAt(s, sep, r.value)
    ensures r.Some? ==> forall j :: from <= j < r.value ==> !OccursAt(s, sep, j)
    ensures r.None? ==> forall j :: from <= j <= |s| ==> !OccursAt(s, sep, j)
    decreases |s| - from
  {
    if OccursAt(s, sep, from) then Some(from)
    else if from == |s| then None
    else IndexFrom(s, sep, from + 1)
  }

  /** `s.indexOf(sep)` with -1 as `None`: the first occurrence of `sep`. */
  function IndexOf(s: string, sep: string): (r: Option<nat>)
    ensures r.Some? ==> OccursAt(s, sep, r.value)
    ensures r.Some? ==> forall j :: 0 <= j < r.value ==> !OccursAt(s, sep, j)
    ensures r.None? <==> !Contains(s, sep)
  {
    IndexFrom(s, sep, 0)
  }

  /** `s.split(sep)` for a non-empty string separator: the pieces between
      successive occurrences of `sep`, left to right. */
  function Split(s: string, sep: string): (parts: seq<string>)
    requires |sep| > 0
    ensures |parts| >= 1
    decreases |s|
  {
    match IndexOf(s, sep)
    case None => [s]
    case Some(i) => [s[..i]] + Split(s[i + |sep|..], sep)
  }

  /** `parts.join(sep)`. */
  function Join(parts: seq<string>, sep: string): string
    requires |parts| >= 1
  {
    if |parts| == 1 then parts[0] else parts[0] + sep + Join(parts[1..], sep)
  }

  /** Splitting loses nothing: joining the pieces with the separator gives the string back. */
  lemma {:induction false} SplitJoin(s: string, sep: string)
    requires |sep| > 0
    ensures Join(Split(s, sep), sep) == s
    decreases |s|
  {
    match IndexOf(s, sep)
    case None =>
    case Some(i) =>
      var rest := s[i + |sep|..];
      SplitJoin(rest, sep);
      JoinFront(s[..i], Split(rest, sep), sep);
      Reassembled(s, sep, i);
  }

  /** The first piece of a split is a prefix of the string. */
  lemma SplitFirstIsPrefix(s: string, sep: string)
    requires |sep| > 0
    ensures OccursAt(s, Split(s, sep)[0], 0)
  {
    match IndexOf(s, sep)
    case None =>
      assert s[0..|s|] == s;
    case Some(i) =>
      assert s[0..i] == s[..i];
  }

  /** The first piece ends exactly at the first occurrence of the separator:
      it is followed by the separator and holds no earlier start of one, so a
      separator that overlaps itself cannot be cut at a later occurrence. */
  lemma SplitFirstPiece(s: string, sep: string)
    requires |sep| > 0
    ensures IndexOf(s, sep).Some? ==> Split(s, sep)[0] == s[..IndexOf(s, sep).value]
    ensures IndexOf(s, sep).None? ==> Split(s, sep) == [s]
    ensures |Split(s, sep)| > 1 <==> Contains(s, sep)
    ensures |Split(s, sep)| > 1 ==>
              && OccursAt(s, sep, |Split(s, sep)[0]|)
              && forall j :: 0 <= j < |Split(s, sep)[0]| ==> !OccursAt(s, sep, j)
  {
    match IndexOf(s, sep)
    case None =>
    case Some(i) =>
      assert Split(s, sep)[0] == s[..i];
  }

  /** The first two pieces of a split occur in the string that was split, and
      a string without the separator is its own only piece. */
  lemma SplitPieces(s: string, sep: string)
    requires |sep| > 0
    ensures Contains(s, Split(s, sep)[0])
    ensures |Split(s, sep)| > 1 ==> Contains(s, Split(s, sep)[1])
    ensures !Contains(s, sep) ==> Split(s, sep) == [s]
  {
    var parts := Split(s, sep);
    SplitFirstIsPrefix(s, sep);
    match IndexOf(s, sep)
    case None =>
    case Some(i) =>
      var rest := s[i + |sep|..];
      assert parts == [s[..i]] + Split(rest, sep);
      SplitFirstIsPrefix(rest, sep);
      assert s[i + |sep|..i + |sep| + |rest|] == rest;
      assert OccursAt(s, rest, i + |sep|);
      ContainsTransitive(s, rest, parts[1]);
  }

  /** Joining a piece in front of further pieces puts the separator between them. */
  lemma JoinFront(head: string, tail: seq<string>, sep: string)
    requires |tail| >= 1
    ensures Join([head] + tail, sep) == head + sep + Join(tail, sep)
  {
    assert ([head] + tail)[1..] == tail;
  }

  /** A string is the text before an occurrence, the occurrence and the text after it. */
  lemma Reassembled(s: string, sep: string, i: nat)
    requires OccursAt(s, sep, i)
    ensures s == s[..i] + sep + s[i + |sep|..]
  {
    assert s[i..] == s[i..i + |sep|] + s[i + |sep|..];
    assert s == s[..i] + s[i..];
  }

  /** No piece of a split contains the separator. */
  lemma {:induction false} SplitPiecesFree(s: string, sep: string)
    requires |sep| > 0
    ensures forall k :: 0 <= k < |Split(s, sep)| ==> !Contains(Split(s, sep)[k], sep)
    decreases |s|
  {
    match IndexOf(s, sep)
    case None =>
    case Some(i) =>
      var rest := s[i + |sep|..];
      var tail := Split(rest, sep);
      var parts := Split(s, sep);
      assert parts == [s[..i]] + tail;
      SplitPiecesFree(rest, sep);
      BeforeFirstIsFree(s, sep, i);
      forall k | 0 <= k < |parts| ensures !Contains(parts[k], sep) {
        if k > 0 {
          assert parts[k] == tail[k - 1];
        }
      }
  }

  /** The text before the first occurrence of `sep` does not contain it. */
  lemma BeforeFirstIsFree(s: string, sep: string, i: nat)
    requires |sep| > 0 && IndexOf(s, sep) == Some(i)
    ensures !Contains(s[..i], sep)
  {
    forall j: nat | j <= i ensures !OccursAt(s[..i], sep, j) {
      if OccursAt(s[..i], sep, j) {
        assert s[j..j + |sep|] == s[..i][j..j + |sep|];
        assert OccursAt(s, sep, j);
      }
    }
  }

  /** The character for a decimal digit. */
  function DigitChar(d: nat): (c: char)
    requires d < 10
    ensures '0' <= c <= '9'
  {
    (48 + d) as char
  }

  /** The value of a string of decimal digits. */
  function DecimalValue(s: string): nat
    requires forall i :: 0 <= i < |s| ==> '0' <= s[i] <= '9'
  {
    if s == [] then 0 else 10 * DecimalValue(s[..|s| - 1]) + (s[|s| - 1] as int - 48)
  }

  /** `${n}` for a non-negative integer: its decimal digits, without leading zeros. */
  function NatToString(n: nat): (s: string)
    ensures |s| >= 1 && forall i :: 0 <= i < |s| ==> '0' <= s[i] <= '9'
    ensures |s| > 1 ==> s[0] != '0'
    ensures DecimalValue(s) == n
  {
    if n < 10 then [DigitChar(n)]
    else
      var prefix := NatToString(n / 10);
      var s := prefix + [DigitChar(n % 10)];
      assert s[..|s| - 1] == prefix;
      s
  }
}
