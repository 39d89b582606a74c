/** Python string primitives the handler relies on: `str.strip`, `str.split`,
    `str.join`, and the zero-padded digits `strftime` writes. */
module Text {
  import opened Wrappers

  /** Python's `str.isspace` for one character (the characters `str.strip()`
      removes and the regular-expression class `\s` matches). */
  predicate IsSpace(c: char)
  {
    c == ' ' || ('\t' <= c <= '\r') || ('\U{1c}' <= c <= '\U{1f}')
    || c == '\U{85}' || c == '\U{a0}' || c == '\U{1680}'
    || ('\U{2000}' <= c <= '\U{200a}') || c == '\U{2028}' || c == '\U{2029}'
    || c == '\U{202f}' || c == '\U{205f}' || c == '\U{3000}'
  }

  /** `s.lstrip()`: the suffix of `s` that starts at its first non-space character. */
  function StripLeft(s: string): (r: string)
    ensures |r| <= |s| && r == s[|s| - |r|..]
    ensures forall k :: 0 <= k < |s| - |r| ==> IsSpace(s[k])
    ensures r != [] ==> !IsSpace(r[0])
  {
    if s != [] && IsSpace(s[0]) then StripLeft(s[1..]) else s
  }

  /** `s.rstrip()`: the prefix of `s` that ends at its last non-space character. */
  function StripRight(s: string): (r: string)
    ensures |r| <= |s| && r == s[..|r|]
    ensures forall k :: |r| <= k < |s| ==> IsSpace(s[k])
    ensures r != [] ==> !IsSpace(r[|r| - 1])
  {
    if s != [] && IsSpace(s[|s| - 1]) then StripRight(s[..|s| - 1]) else s
  }

  /** `s.strip()`: the window of `s` left once the leading and the trailing
      spaces are dropped; it starts where `StripLeft` starts. */
  function Strip(s: string): (r: string)
    ensures var a := |s| - |StripLeft(s)|;
      && a + |r| <= |s| && r == s[a..a + |r|]
      && (forall k :: 0 <= k < a ==> IsSpace(s[k]))
      && (forall k :: a + |r| <= k < |s| ==> IsSpace(s[k]))
    ensures r != [] ==> !IsSpace(r[0]) && !IsSpace(r[|r| - 1])
  {
    StripRight(StripLeft(s))
  }

  /** Stripping twice strips no more than stripping once. */
  lemma StripIdempotent(s: string)
    ensures Strip(Strip(s)) == Strip(s)
  {
    var r := Strip(s);
    assert StripLeft(r) == r;
    assert StripRight(r) == r;
  }

  /** Stripping a string whose ends are not spaces leaves it unchanged. */
  lemma StripOfTrimmed(s: string)
    requires s != [] ==> !IsSpace(s[0]) && !IsSpace(s[|s| - 1])
    ensures Strip(s) == s
  {
    assert StripLeft(s) == s;
    assert StripRight(s) == s;
  }

  /** Every character `Strip` keeps comes from its input. */
  lemma StripWithin(s: string)
    ensures forall k :: 0 <= k < |Strip(s)| ==> Strip(s)[k] in s
  {
    var l := StripLeft(s);
    var r := StripRight(l);
    forall k | 0 <= k < |r|
      ensures r[k] in s
    {
      assert r[k] == l[k] == s[|s| - |l| + k];
    }
  }

  /** `p` occurs in `s` starting at index `k`. */
  predicate OccursAt(s: string, p: string, k: nat)
  {
    k + |p| <= |s| && s[k..k + |p|] == p
  }

  /** `s.find(p, i)`: the leftmost occurrence of `p` in `s` at or after `i`. */
  function IndexFrom(s: string, p: string, i: nat): (r: Option<nat>)
    requires i <= |s|
    decreases |s| - i
    ensures r.Some? ==> i <= r.value && OccursAt(s, p, r.value)
    ensures r.Some? ==> forall k :: i <= k < r.value ==> !OccursAt(s, p, k)
    ensures r.None? ==> forall k :: i <= k <= |s| ==> !OccursAt(s, p, k)
  {
    if OccursAt(s, p, i) then Some(i)
    else if i == |s| then None
    else IndexFrom(s, p, i + 1)
  }

  /** An occurrence with no earlier occurrence is the one `IndexFrom` finds. */
  lemma IndexFromFinds(s: string, p: string, i: nat)
    requires OccursAt(s, p, i)
    requires forall k :: 0 <= k < i ==> !OccursAt(s, p, k)
    ensures IndexFrom(s, p, 0) == Some(i)
  {
  }

  /** No occurrence of `p` lies wholly inside a prefix that precedes the first one. */
  lemma PrefixBeforeFirstOccurrence(s: string, p: string, i: nat)
    requires |p| > 0 && i <= |s|
    requires forall k :: 0 <= k < i ==> !OccursAt(s, p, k)
    ensures IndexFrom(s[..i], p, 0).None?
  {
    forall k | 0 <= k <= i
      ensures !OccursAt(s[..i], p, k)
    {
      if k + |p| <= i {
        assert !OccursAt(s, p, k);
        assert s[..i][k..k + |p|] == s[k..k + |p|];
      }
    }
  }

  /** `s.split(sep)` for a non-empty separator: the pieces between the
      occurrences of `sep`, found left to right without overlap. */
  function Split(s: string, sep: string): (r: seq<string>)
    requires |sep| > 0
    decreases |s|
    ensures |r| >= 1
    ensures forall k :: 0 <= k < |r| ==> IndexFrom(r[k], sep, 0).None?
  {
    match IndexFrom(s, sep, 0)
    case None => [s]
    case Some(i) =>
      PrefixBeforeFirstOccurrence(s, sep, i);
      [s[..i]] + Split(s[i + |sep|..], sep)
  }

  /** A split yields more than one piece exactly when the separator occurs. */
  lemma SplitPieces(s: string, sep: string)
    requires |sep| > 0
    ensures |Split(s, sep)| == 1 <==> IndexFrom(s, sep, 0).None?
  {
    match IndexFrom(s, sep, 0)
    case None =>
    case Some(i) =>
      assert Split(s, sep) == [s[..i]] + Split(s[i + |sep|..], sep);
  }

  /** `sep.join(xs)`; `join_xpaths` is exactly this, with ` | ` as its default separator. */
  function Join(xs: seq<string>, sep: string): string
    decreases |xs|
  {
    if |xs| == 0 then ""
    else if |xs| == 1 then xs[0]
    else xs[0] + sep + Join(xs[1..], sep)
  }

  /** Joining a piece in front of at least one more piece. */
  lemma JoinCons(a: string, xs: seq<string>, sep: string)
    requires |xs| >= 1
    ensures Join([a] + xs, sep) == a + sep + Join(xs, sep)
  {
    assert ([a] + xs)[1..] == xs;
  }

  /** Joining the pieces of a split with the same separator gives back the string. */
  lemma {:induction false} JoinSplit(s: string, sep: string)
    requires |sep| > 0
    decreases |s|
    ensures Join(Split(s, sep), sep) == s
  {
    match IndexFrom(s, sep, 0)
    case None =>
    case Some(i) =>
      var rest := s[i + |sep|..];
      var pieces := Split(rest, sep);
      assert Split(s, sep) == [s[..i]] + pieces;
      JoinCons(s[..i], pieces, sep);
      JoinSplit(rest, sep);
      assert s[i..i + |sep|] == sep;
      SliceThree(s, i, i + |sep|);
  }

  /** A string without the character `c` has no occurrence of `[c]`. */
  lemma AbsentCharNotFound(s: string, c: char)
    requires c !in s
    ensures IndexFrom(s, [c], 0).None?
  {
    forall k | 0 <= k <= |s| ensures !OccursAt(s, [c], k) {
      if k + 1 <= |s| { assert s[k..k + 1] == [s[k]]; }
    }
  }

  /** A string in which `[c]` is not found does not contain `c`. */
  lemma NotFoundAbsentChar(s: string, c: char)
    requires IndexFrom(s, [c], 0).None?
    ensures c !in s
  {
    forall k | 0 <= k < |s|
      ensures s[k] != c
    {
      assert !OccursAt(s, [c], k);
      assert s[k..k + 1] == [s[k]];
    }
  }

  /** No piece of a split on one character contains that character. */
  lemma SplitOnCharPieces(s: string, c: char)
    ensures forall k :: 0 <= k < |Split(s, [c])| ==> c !in Split(s, [c])[k]
  {
    var r := Split(s, [c]);
    forall k | 0 <= k < |r|
      ensures c !in r[k]
    {
      NotFoundAbsentChar(r[k], c);
    }
  }

  /** Splitting on one character undoes joining with it, provided no piece
      contains that character. */
  lemma {:induction false} SplitJoin(xs: seq<string>, c: char)
    requires |xs| >= 1
    requires forall k :: 0 <= k < |xs| ==> c !in xs[k]
    decreases |xs|
    ensures Split(Join(xs, [c]), [c]) == xs
  {
    var s := Join(xs, [c]);
    if |xs| == 1 {
      AbsentCharNotFound(s, c);
    } else {
      var a := xs[0];
      var tail := Join(xs[1..], [c]);
      assert s == a + [c] + tail;
      assert s[..|a|] == a;
      assert OccursAt(s, [c], |a|);
      AbsentCharNotFound(a, c);
      forall k | 0 <= k < |a| ensures !OccursAt(s, [c], k) {
        assert !OccursAt(a, [c], k);
        assert s[k..k + 1] == a[k..k + 1];
      }
      IndexFromFinds(s, [c], |a|);
      assert s[|a| + 1..] == tail;
      SplitJoin(xs[1..], c);
    }
  }

  /** The value of a decimal digit character. */
  function DigitValue(c: char): int
  {
    c as int - '0' as int
  }

  /** The decimal digit for `d`. */
  function Digit(d: nat): (c: char)
    requires d < 10
    ensures '0' <= c <= '9' && DigitValue(c) == d
  {
    ('0' as int + d) as char
  }

  /** Two zero-padded decimal digits, as `%02d` and `strftime`'s `%m`, `%d`,
      `%H`, `%M`, `%S` render them. */
  function Pad2(n: nat): (r: string)
    requires n < 100
    ensures |r| == 2 && '0' <= r[0] <= '9' && '0' <= r[1] <= '9'
    ensures DigitValue(r[0]) * 10 + DigitValue(r[1]) == n
  {
    [Digit(n / 10), Digit(n % 10)]
  }

  /** Four zero-padded decimal digits, as `strftime`'s `%Y` renders a year
      from 1000 on. */
  function Pad4(n: nat): (r: string)
    requires n < 10000
    ensures |r| == 4 && forall k :: 0 <= k < 4 ==> '0' <= r[k] <= '9'
    ensures DigitValue(r[0]) * 1000 + DigitValue(r[1]) * 100 + DigitValue(r[2]) * 10 + DigitValue(r[3]) == n
  {
    Pad2(n / 100) + Pad2(n % 100)
  }
}
