/** The four regular expressions the handler runs with `re.search`, each
    written out as the leftmost, priority-ordered match Python's engine finds:

    - `asin\s?(?:=|\.)?\s?\"?([A-Z0-9]+)\"?` (page ASIN fallback),
    - `merchantId = \"(\w+?)\";` (merchant id inside an offer's script),
    - `pid=(.*?)&amp;` and `'anti-csrftoken-a2z' value='(.*?)'` (turbo tokens).

    Every function returns group 1 of the first match, or `None`. */
module Patterns {
  import opened Wrappers
  import opened Text

  /** The characters `.` matches without the DOTALL flag. */
  predicate NotNewline(c: char)
  {
    c != '\n'
  }

  /** The characters `\w` matches (the ASCII part of Python's class). */
  predicate IsWordChar(c: char)
  {
    ('a' <= c <= 'z') || ('A' <= c <= 'Z') || ('0' <= c <= '9') || c == '_'
  }

  /** The characters of `[A-Z0-9]`. */
  predicate IsAsinChar(c: char)
  {
    ('A' <= c <= 'Z') || ('0' <= c <= '9')
  }

  /** Where a lazy group `X*?` (or `X+?` when `minLen` is 1) that started at
      `start` ends: the first position at or after `k` reachable through
      characters of class `allowed` at which `suffix` follows. */
  function LazyEnd(s: string, suffix: string, allowed: char -> bool, minLen: nat, start: nat, k: nat): (r: Option<nat>)
    requires start <= k <= |s|
    decreases |s| - k
    ensures r.Some? ==> k <= r.value && start + minLen <= r.value && OccursAt(s, suffix, r.value)
    ensures r.Some? ==> forall j :: k <= j < r.value ==> allowed(s[j])
    ensures r.Some? ==> forall j :: k <= j < r.value && start + minLen <= j ==> !OccursAt(s, suffix, j)
  {
    if start + minLen <= k && OccursAt(s, suffix, k) then Some(k)
    else if k < |s| && allowed(s[k]) then LazyEnd(s, suffix, allowed, minLen, start, k + 1)
    else None
  }

  /** `re.search(prefix + "(X*?)" + suffix, s[i..])` for literal `prefix` and
      `suffix`: the leftmost start wins, and at that start the shortest group. */
  function LazySearchFrom(s: string, prefix: string, suffix: string, allowed: char -> bool, minLen: nat, i: nat): (r: Option<string>)
    requires i <= |s|
    decreases |s| - i
    ensures r.Some? ==> |r.value| >= minLen
    ensures r.Some? ==> forall j :: 0 <= j < |r.value| ==> allowed(r.value[j])
  {
    var start := i + |prefix|;
    if OccursAt(s, prefix, i) && LazyEnd(s, suffix, allowed, minLen, start, start).Some? then
      var e := LazyEnd(s, suffix, allowed, minLen, start, start).value;
      assert forall j :: 0 <= j < e - start ==> s[start..e][j] == s[start + j];
      Some(s[start..e])
    else if i == |s| then None
    else LazySearchFrom(s, prefix, suffix, allowed, minLen, i + 1)
  }

  /** A match of `prefix + "(X*?)" + suffix` starts at `a`: `prefix` occurs
      there and a lazy group after it reaches `suffix`. */
  predicate LazyMatchAt(s: string, prefix: string, suffix: string, allowed: char -> bool, minLen: nat, a: nat)
  {
    OccursAt(s, prefix, a) && LazyEnd(s, suffix, allowed, minLen, a + |prefix|, a + |prefix|).Some?
  }

  /** Group 1 of the match that starts at `a`: the text between `prefix` and
      the first `suffix` the lazy group reaches. */
  function LazyGroupAt(s: string, prefix: string, suffix: string, allowed: char -> bool, minLen: nat, a: nat): string
    requires LazyMatchAt(s, prefix, suffix, allowed, minLen, a)
  {
    s[a + |prefix|..LazyEnd(s, suffix, allowed, minLen, a + |prefix|, a + |prefix|).value]
  }

  /** The leftmost start wins: the search from `i` returns the group of the
      first position at or after `i` where a match starts. */
  lemma {:induction false} LazySearchLeftmost(s: string, prefix: string, suffix: string, allowed: char -> bool, minLen: nat, i: nat, a: nat)
    requires i <= a <= |s| && LazyMatchAt(s, prefix, suffix, allowed, minLen, a)
    requires forall b :: i <= b < a ==> !LazyMatchAt(s, prefix, suffix, allowed, minLen, b)
    decreases a - i
    ensures LazySearchFrom(s, prefix, suffix, allowed, minLen, i) == Some(LazyGroupAt(s, prefix, suffix, allowed, minLen, a))
  {
    if i < a {
      assert !LazyMatchAt(s, prefix, suffix, allowed, minLen, i);
      LazySearchLeftmost(s, prefix, suffix, allowed, minLen, i + 1, a);
    }
  }

  /** Without a match starting at or after `i` the search finds nothing. */
  lemma {:induction false} LazySearchNone(s: string, prefix: string, suffix: string, allowed: char -> bool, minLen: nat, i: nat)
    requires i <= |s|
    requires forall b :: i <= b <= |s| ==> !LazyMatchAt(s, prefix, suffix, allowed, minLen, b)
    decreases |s| - i
    ensures LazySearchFrom(s, prefix, suffix, allowed, minLen, i).None?
  {
    assert !LazyMatchAt(s, prefix, suffix, allowed, minLen, i);
    if i < |s| {
      LazySearchNone(s, prefix, suffix, allowed, minLen, i + 1);
    }
  }

  /** A lazy group finds an end whenever some reachable end exists. */
  lemma {:induction false} LazyEndReaches(s: string, suffix: string, allowed: char -> bool, minLen: nat, start: nat, k: nat, e: nat)
    requires start <= k <= e <= |s|
    requires start + minLen <= e && OccursAt(s, suffix, e)
    requires forall j :: k <= j < e ==> allowed(s[j])
    decreases e - k
    ensures LazyEnd(s, suffix, allowed, minLen, start, k).Some?
  {
    if !(start + minLen <= k && OccursAt(s, suffix, k)) {
      LazyEndReaches(s, suffix, allowed, minLen, start, k + 1, e);
    }
  }

  /** An occurrence of `prefix + g + suffix` is one of `prefix`, then `g`,
      then one of `suffix`. */
  lemma OccursSplits(s: string, prefix: string, g: string, suffix: string, allowed: char -> bool, at: nat)
    requires OccursAt(s, prefix + g + suffix, at)
    requires forall j :: 0 <= j < |g| ==> allowed(g[j])
    ensures OccursAt(s, prefix, at) && OccursAt(s, suffix, at + |prefix| + |g|)
    ensures forall j :: at + |prefix| <= j < at + |prefix| + |g| ==> allowed(s[j])
  {
    var whole := prefix + g + suffix;
    var start := at + |prefix|;
    var e := start + |g|;
    assert s[at..at + |whole|] == whole;
    assert s[at..start] == whole[..|prefix|] == prefix;
    assert s[e..e + |suffix|] == whole[|prefix| + |g|..] == suffix;
    forall j | start <= j < e ensures allowed(s[j]) {
      assert s[j] == whole[j - at] == g[j - start];
    }
  }

  /** Whenever `s` contains `prefix`, a group of allowed characters and then
      `suffix`, the search succeeds (possibly at an earlier start). */
  lemma {:induction false} LazySearchFinds(s: string, prefix: string, g: string, suffix: string, allowed: char -> bool, minLen: nat, i: nat, at: nat)
    requires i <= at && OccursAt(s, prefix + g + suffix, at)
    requires |g| >= minLen && forall j :: 0 <= j < |g| ==> allowed(g[j])
    decreases at - i
    ensures LazySearchFrom(s, prefix, suffix, allowed, minLen, i).Some?
  {
    var start := i + |prefix|;
    if i == at {
      OccursSplits(s, prefix, g, suffix, allowed, at);
      LazyEndReaches(s, suffix, allowed, minLen, start, start, start + |g|);
    } else if !(OccursAt(s, prefix, i) && LazyEnd(s, suffix, allowed, minLen, start, start).Some?) {
      LazySearchFinds(s, prefix, g, suffix, allowed, minLen, i + 1, at);
    }
  }

  /** Group 1 of `prefix(.*?)suffix`, with `.` not matching a newline. */
  function LineGroup(text: string, prefix: string, suffix: string): (r: Option<string>)
    ensures r.Some? ==> '\n' !in r.value
  {
    var r := LazySearchFrom(text, prefix, suffix, NotNewline, 0, 0);
    assert r.Some? ==> forall j :: 0 <= j < |r.value| ==> r.value[j] != '\n';
    r
  }

  /** Group 1 of `pid=(.*?)&amp;`. */
  function PidMatch(text: string): Option<string>
  {
    LineGroup(text, "pid=", "&amp;")
  }

  /** Group 1 of `'anti-csrftoken-a2z' value='(.*?)'`. */
  function CsrfMatch(text: string): Option<string>
  {
    LineGroup(text, "'anti-csrftoken-a2z' value='", "'")
  }

  /** Group 1 of `merchantId = \"(\w+?)\";`. */
  function MerchantIdMatch(text: string): (r: Option<string>)
    ensures r.Some? ==> |r.value| >= 1 && forall j :: 0 <= j < |r.value| ==> IsWordChar(r.value[j])
  {
    LazySearchFrom(text, "merchantId = \"", "\";", IsWordChar, 1, 0)
  }

  /** A response body that carries the token markup yields a token. */
  lemma CsrfFound(text: string, token: string, at: nat)
    requires '\n' !in token
    requires OccursAt(text, "'anti-csrftoken-a2z' value='" + token + "'", at)
    ensures CsrfMatch(text).Some?
  {
    LazySearchFinds(text, "'anti-csrftoken-a2z' value='", token, "'", NotNewline, 0, 0, at);
  }

  /** A response body that carries `pid=...&amp;` on one line yields a pid. */
  lemma PidFound(text: string, pid: string, at: nat)
    requires '\n' !in pid
    requires OccursAt(text, "pid=" + pid + "&amp;", at)
    ensures PidMatch(text).Some?
  {
    LazySearchFinds(text, "pid=", pid, "&amp;", NotNewline, 0, 0, at);
  }

  /** End of the maximal run of `[A-Z0-9]` characters starting at `j`. */
  function AsinRunEnd(s: string, j: nat): (e: nat)
    requires j <= |s|
    decreases |s| - j
    ensures j <= e <= |s|
    ensures forall k :: j <= k < e ==> IsAsinChar(s[k])
    ensures e < |s| ==> !IsAsinChar(s[e])
  {
    if j < |s| && IsAsinChar(s[j]) then AsinRunEnd(s, j + 1) else j
  }

  /** The `k`-th optional element of `\s?(?:=|\.)?\s?\"?`. */
  predicate AsinSeparator(k: nat, c: char)
  {
    if k == 0 || k == 2 then IsSpace(c)
    else if k == 1 then c == '=' || c == '.'
    else c == '"'
  }

  /** Matching `asin`'s tail from position `j`, optional element `k` onwards:
      each `?` first tries to consume one character and backtracks when the
      rest then fails; `([A-Z0-9]+)` is greedy and the closing `\"?` always
      succeeds, so the group is the maximal run. */
  function AsinTailAt(s: string, j: nat, k: nat): (r: Option<string>)
    requires j <= |s| && k <= 4
    decreases 4 - k
    ensures r.Some? ==> |r.value| >= 1 && forall i :: 0 <= i < |r.value| ==> IsAsinChar(r.value[i])
  {
    if k == 4 then
      if j < |s| && IsAsinChar(s[j]) then
        var e := AsinRunEnd(s, j);
        assert forall i :: 0 <= i < e - j ==> s[j..e][i] == s[j + i];
        Some(s[j..e])
      else None
    else if j < |s| && AsinSeparator(k, s[j]) && AsinTailAt(s, j + 1, k + 1).Some? then
      AsinTailAt(s, j + 1, k + 1)
    else AsinTailAt(s, j, k + 1)
  }

  /** `re.search(r"asin\s?(?:=|\.)?\s?\"?([A-Z0-9]+)\"?", s[i..])`, group 1. */
  function AsinSearchFrom(s: string, i: nat): (r: Option<string>)
    requires i <= |s|
    decreases |s| - i
    ensures r.Some? ==> |r.value| >= 1 && forall k :: 0 <= k < |r.value| ==> IsAsinChar(r.value[k])
  {
    if OccursAt(s, "asin", i) && AsinTailAt(s, i + 4, 0).Some? then AsinTailAt(s, i + 4, 0)
    else if i == |s| then None
    else AsinSearchFrom(s, i + 1)
  }

  /** The ASIN fallback scan of a whole page. */
  function AsinSearch(s: string): Option<string>
  {
    AsinSearchFrom(s, 0)
  }

  /** A match of the ASIN pattern starts at `a`. */
  predicate AsinMatchAt(s: string, a: nat)
  {
    OccursAt(s, "asin", a) && AsinTailAt(s, a + 4, 0).Some?
  }

  /** The leftmost start wins: the scan from `i` returns the group of the
      first position at or after `i` where a match starts. */
  lemma {:induction false} AsinSearchLeftmost(s: string, i: nat, a: nat)
    requires i <= a <= |s| && AsinMatchAt(s, a)
    requires forall b :: i <= b < a ==> !AsinMatchAt(s, b)
    decreases a - i
    ensures AsinSearchFrom(s, i) == AsinTailAt(s, a + 4, 0)
  {
    if i < a {
      assert !AsinMatchAt(s, i);
      AsinSearchLeftmost(s, i + 1, a);
    }
  }

  /** Without a match starting at or after `i` the scan finds nothing. */
  lemma {:induction false} AsinSearchNone(s: string, i: nat)
    requires i <= |s|
    requires forall b :: i <= b <= |s| ==> !AsinMatchAt(s, b)
    decreases |s| - i
    ensures AsinSearchFrom(s, i).None?
  {
    assert !AsinMatchAt(s, i);
    if i < |s| {
      AsinSearchNone(s, i + 1);
    }
  }

  /** The tail always matches when an ASIN character follows directly: no
      optional separator can consume it. */
  lemma {:induction false} AsinTailDirect(s: string, j: nat, k: nat)
    requires j < |s| && k <= 4 && IsAsinChar(s[j])
    decreases 4 - k
    ensures AsinTailAt(s, j, k) == Some(s[j..AsinRunEnd(s, j)])
  {
    if k < 4 {
      assert !AsinSeparator(k, s[j]);
      AsinTailDirect(s, j, k + 1);
    }
  }

  /** `asin` immediately followed by an ASIN character is always found. */
  lemma {:induction false} AsinSearchFinds(s: string, i: nat, at: nat)
    requires i <= at && OccursAt(s, "asin", at) && at + 4 < |s| && IsAsinChar(s[at + 4])
    decreases at - i
    ensures AsinSearchFrom(s, i).Some?
  {
    if i == at {
      AsinTailDirect(s, at + 4, 0);
    } else if !(OccursAt(s, "asin", i) && AsinTailAt(s, i + 4, 0).Some?) {
      AsinSearchFinds(s, i + 1, at);
    }
  }

  /** Without any occurrence of `asin` the fallback finds nothing. */
  lemma {:induction false} AsinSearchNeedsKeyword(s: string, i: nat)
    requires i <= |s|
    requires forall k :: i <= k <= |s| ==> !OccursAt(s, "asin", k)
    decreases |s| - i
    ensures AsinSearchFrom(s, i).None?
  {
    if i < |s| {
      AsinSearchNeedsKeyword(s, i + 1);
    }
  }
}
