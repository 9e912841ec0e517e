/**
 * String operations the analysis nodes apply to model output: substring search, the
 * `split(sep)[k]` pieces used to cut a fenced code block out of a reply, `str.strip()`
 * and the decimal rendering of counts in f-strings.
 */
module Text {

  const Fence: string := "```"
  const JsonFence: string := "```json"

  /** `pat` occurs in `s` starting at index `k`. */
  predicate OccursAt(s: string, pat: string, k: int)
  {
    0 <= k && k + |pat| <= |s| && s[k..k + |pat|] == pat
  }

  /** Python's `pat in s`. */
  predicate Contains(s: string, pat: string)
  {
    exists k | 0 <= k <= |s| :: OccursAt(s, pat, k)
  }

  function FindFrom(s: string, pat: string, i: nat): (r: int)
    ensures r == -1 ==> forall k | i <= k :: !OccursAt(s, pat, k)
    ensures r != -1 ==> i <= r && OccursAt(s, pat, r)
    ensures r != -1 ==> forall k | i <= k < r :: !OccursAt(s, pat, k)
    decreases |s| - i
  {
    if i + |pat| > |s| then -1
    else if s[i..i + |pat|] == pat then i
    else FindFrom(s, pat, i + 1)
  }

  /** Python's `s.find(pat)`: the first index at which `pat` occurs, or -1. */
  function Find(s: string, pat: string): (r: int)
    ensures r == -1 <==> !Contains(s, pat)
    ensures r != -1 ==> OccursAt(s, pat, r) && forall k | 0 <= k < r :: !OccursAt(s, pat, k)
  {
    FindFrom(s, pat, 0)
  }

  /** `s.split(sep)[0]`: the text before the first `sep`, or all of `s`. */
  function SplitFirst(s: string, sep: string): string
  {
    var k := Find(s, sep);
    if k == -1 then s else s[..k]
  }

  /** `s.split(sep)[1]`: the text between the first and the second `sep`. */
  function SplitSecond(s: string, sep: string): string
    requires Contains(s, sep)
  {
    var k := Find(s, sep);
    SplitFirst(s[k + |sep|..], sep)
  }

  lemma {:induction false} SplitFirstHasNoSep(s: string, sep: string)
    requires sep != ""
    ensures !Contains(SplitFirst(s, sep), sep)
  {
    var k := Find(s, sep);
    if k != -1 {
      var r := s[..k];
      forall j | OccursAt(r, sep, j) ensures false {
        assert r[j..j + |sep|] == s[j..j + |sep|];
        assert OccursAt(s, sep, j);
      }
    }
  }

  lemma JsonFenceStartsWithFence(s: string, k: int)
    requires OccursAt(s, JsonFence, k)
    ensures OccursAt(s, Fence, k)
  {
    assert |JsonFence| == 7 && JsonFence[..3] == Fence;
    assert s[k..k + 3] == s[k..k + 7][..3];
  }

  lemma JsonFenceContainsFence(s: string)
    ensures Contains(s, JsonFence) ==> Contains(s, Fence)
  {
    if Contains(s, JsonFence) {
      var k :| 0 <= k <= |s| && OccursAt(s, JsonFence, k);
      JsonFenceStartsWithFence(s, k);
    }
  }

  /**
   * The payload the analysis nodes hand to the JSON decoder: the piece after the first
   * "```json" (up to the next "```json") cut at its first "```"; failing that, the piece
   * between the first two "```"; failing that, the whole reply.
   */
  function StripFences(content: string): (payload: string)
    ensures Contains(content, Fence) ==> !Contains(payload, Fence)
    ensures !Contains(content, Fence) ==> payload == content
  {
    JsonFenceContainsFence(content);
    if Contains(content, JsonFence) then
      SplitFirstHasNoSep(SplitSecond(content, JsonFence), Fence);
      SplitFirst(SplitSecond(content, JsonFence), Fence)
    else if Contains(content, Fence) then
      SplitFirstHasNoSep(SplitSecond(content, Fence), Fence);
      SplitFirst(SplitSecond(content, Fence), Fence)
    else
      content
  }

  /** A payload that can be fenced without being altered: no fence inside, none formed at its end. */
  predicate Fenceable(p: string)
  {
    !Contains(p, Fence) && (p == [] || p[|p| - 1] != '`')
  }

  /** An occurrence inside a prefix of `a` is an occurrence in `a`, and conversely when it fits. */
  lemma OccursInPrefix(a: string, pat: string, j: nat, k: int)
    requires j <= |a|
    ensures OccursAt(a[..j], pat, k) <==> (OccursAt(a, pat, k) && k + |pat| <= j)
  {
    if 0 <= k && k + |pat| <= j {
      assert a[..j][k..k + |pat|] == a[k..k + |pat|];
    }
  }

  lemma NoFenceBeforePayloadEnd(p: string, rest: string, k: int)
    requires Fenceable(p) && 0 <= k < |p|
    ensures !OccursAt(p + Fence + rest, Fence, k)
  {
    var a := p + Fence + rest;
    if k + 3 <= |p| {
      OccursInPrefix(a, Fence, |p|, k);
      assert a[..|p|] == p;
    } else {
      assert a[|p| - 1] == p[|p| - 1];
      assert a[k..k + 3][|p| - 1 - k] == a[|p| - 1];
    }
  }

  lemma FirstFenceAfterPayload(p: string, rest: string)
    requires Fenceable(p)
    ensures Find(p + Fence + rest, Fence) == |p|
  {
    var a := p + Fence + rest;
    assert a[|p|..|p| + 3] == Fence;
    assert OccursAt(a, Fence, |p|);
    forall k | 0 <= k < |p| ensures !OccursAt(a, Fence, k) {
      NoFenceBeforePayloadEnd(p, rest, k);
    }
  }

  /** A "```json" cannot start inside the closing fence when the text after it does not start with a backtick. */
  lemma NoJsonFenceInsideClosingFence(p: string, rest: string)
    requires rest == [] || rest[0] != '`'
    ensures forall i | |p| < i < |p| + 3 :: !OccursAt(p + Fence + rest, JsonFence, i)
  {
    var a := p + Fence + rest;
    forall i | |p| < i < |p| + 3 ensures !OccursAt(a, JsonFence, i) {
      if i + 7 <= |a| {
        assert a[i..i + 7][|p| + 3 - i] == a[|p| + 3] == rest[0];
      }
    }
  }

  /** Cutting the text before a "```json" found after the closing fence keeps the payload as its first piece. */
  lemma CutBeforeLaterJsonFence(p: string, rest: string, j: nat)
    requires Fenceable(p) && |p| + 3 <= j <= |p + Fence + rest|
    ensures SplitFirst((p + Fence + rest)[..j], Fence) == p
  {
    var a := p + Fence + rest;
    var piece := a[..j];
    OccursInPrefix(a, Fence, j, |p|);
    forall k | 0 <= k < |p| ensures !OccursAt(piece, Fence, k) {
      NoFenceBeforePayloadEnd(p, rest, k);
      OccursInPrefix(a, Fence, j, k);
    }
    FirstFenceAfterPayload(p, rest);
    assert piece[..|p|] == p;
  }

  /** Cutting at a "```json" that starts right at the payload's end leaves the payload. */
  lemma CutAtPayloadEnd(p: string, rest: string)
    requires Fenceable(p) && |p| <= |p + Fence + rest|
    ensures SplitFirst((p + Fence + rest)[..|p|], Fence) == p
  {
    var a := p + Fence + rest;
    var piece := a[..|p|];
    assert piece == p;
    forall k | 0 <= k ensures !OccursAt(piece, Fence, k) {
    }
    assert !Contains(piece, Fence);
  }

  /** Cutting at the first "```json" and then at the first "```" leaves the payload. */
  lemma {:induction false} CutAfterPayload(p: string, rest: string)
    requires Fenceable(p) && (rest == [] || rest[0] != '`')
    ensures SplitFirst(SplitFirst(p + Fence + rest, JsonFence), Fence) == p
  {
    var a := p + Fence + rest;
    FirstFenceAfterPayload(p, rest);
    assert a[..|p|] == p;
    var j := Find(a, JsonFence);
    if j != -1 {
      JsonFenceStartsWithFence(a, j);
      assert j >= |p|;
      if j >= |p| + 3 {
        CutBeforeLaterJsonFence(p, rest, j);
      } else {
        NoJsonFenceInsideClosingFence(p, rest);
        assert j == |p|;
        CutAtPayloadEnd(p, rest);
      }
    }
  }

  /** The first "```json" of a text is the one that follows a prefix holding none. */
  lemma FirstJsonFenceAfterPrefix(pre: string, x: string)
    requires !Contains(pre, JsonFence)
    ensures Find(pre + JsonFence + x, JsonFence) == |pre|
  {
    var c := pre + JsonFence + x;
    assert c[|pre|..|pre| + 7] == JsonFence;
    assert OccursAt(c, JsonFence, |pre|);
    forall k | 0 <= k < |pre| ensures !OccursAt(c, JsonFence, k) {
      if k + 7 <= |pre| {
        OccursInPrefix(c, JsonFence, |pre|, k);
        assert c[..|pre|] == pre;
        assert !OccursAt(pre, JsonFence, k);
      } else if k + 3 < |pre| {
        // "```json" has no proper prefix that is also a suffix, so it cannot overlap itself.
        assert c[|pre|] == '`';
      } else {
        assert c[k + 3] == '`';
      }
    }
  }

  /**
   * A reply whose first "```json" opens a block holding the payload and closed by "```"
   * yields exactly the payload, whatever comes before the block and whatever follows
   * the closing fence (unless it starts another backtick).
   */
  lemma {:induction false} JsonFenceRoundTrip(pre: string, p: string, rest: string)
    requires !Contains(pre, JsonFence)
    requires Fenceable(p) && (rest == [] || rest[0] != '`')
    ensures StripFences(pre + JsonFence + p + Fence + rest) == p
  {
    var c := pre + JsonFence + p + Fence + rest;
    assert c == pre + JsonFence + (p + Fence + rest);
    FirstJsonFenceAfterPrefix(pre, p + Fence + rest);
    assert c[|pre| + 7..] == p + Fence + rest;
    CutAfterPayload(p, rest);
  }

  /** The first "```" of a text is the one that follows a prefix with no backtick. */
  lemma FirstFenceAfterPlainPrefix(pre: string, x: string)
    requires forall i | 0 <= i < |pre| :: pre[i] != '`'
    ensures Find(pre + Fence + x, Fence) == |pre|
  {
    var c := pre + Fence + x;
    assert c[|pre|..|pre| + 3] == Fence;
    assert OccursAt(c, Fence, |pre|);
    forall k | 0 <= k < |pre| ensures !OccursAt(c, Fence, k) {
      assert c[k] == pre[k];
    }
  }

  /**
   * A reply with no "```json" anywhere, whose first "```" follows backtick-free text and
   * opens a block holding the payload, yields exactly the payload.
   */
  lemma {:induction false} FenceRoundTrip(pre: string, p: string, rest: string)
    requires forall i | 0 <= i < |pre| :: pre[i] != '`'
    requires Fenceable(p)
    requires !Contains(pre + Fence + p + Fence + rest, JsonFence)
    ensures StripFences(pre + Fence + p + Fence + rest) == p
  {
    var c := pre + Fence + p + Fence + rest;
    assert c == pre + Fence + (p + Fence + rest);
    FirstFenceAfterPlainPrefix(pre, p + Fence + rest);
    assert c[|pre| + 3..] == p + Fence + rest;
    FirstFenceAfterPayload(p, rest);
    assert SplitSecond(c, Fence) == p;
  }

  lemma ContainedInSlice(s: string, pat: string, i: nat, j: nat)
    requires i <= j <= |s|
    ensures Contains(s[i..j], pat) ==> Contains(s, pat)
  {
    if Contains(s[i..j], pat) {
      var k :| 0 <= k <= |s[i..j]| && OccursAt(s[i..j], pat, k);
      assert s[i + k..i + k + |pat|] == pat by {
        forall m | 0 <= m < |pat| ensures s[i + k..i + k + |pat|][m] == pat[m] {
          assert s[i..j][k..k + |pat|][m] == s[i..j][k + m] == s[i + k + m];
        }
      }
      assert OccursAt(s, pat, i + k);
    }
  }

  /** The characters Python's `str.isspace()` accepts. */
  predicate IsSpace(c: char)
  {
    || c == ' ' || ('\t' <= c <= '\r') || ('\U{1C}' <= c <= '\U{1F}')
    || c == '\U{85}' || c == '\U{A0}' || c == '\U{1680}' || ('\U{2000}' <= c <= '\U{200A}')
    || c == '\U{2028}' || c == '\U{2029}' || c == '\U{202F}' || c == '\U{205F}' || c == '\U{3000}'
  }

  predicate SpacesBetween(s: string, lo: nat, hi: nat)
    requires lo <= hi <= |s|
  {
    forall k | lo <= k < hi :: IsSpace(s[k])
  }

  /** The first position at or after `i` that does not hold whitespace. */
  function SkipSpaces(s: string, i: nat): (n: nat)
    requires i <= |s|
    ensures i <= n <= |s| && SpacesBetween(s, i, n)
    ensures n == |s| || !IsSpace(s[n])
    decreases |s| - i
  {
    if i == |s| || !IsSpace(s[i]) then i else SkipSpaces(s, i + 1)
  }

  /** The position after the last character before `j`, but not before `lo`, that is not whitespace. */
  function SkipSpacesBack(s: string, lo: nat, j: nat): (n: nat)
    requires lo <= j <= |s|
    ensures lo <= n <= j && SpacesBetween(s, n, j)
    ensures n == lo || !IsSpace(s[n - 1])
    decreases j
  {
    if j == lo || !IsSpace(s[j - 1]) then j else SkipSpacesBack(s, lo, j - 1)
  }

  /**
   * Python's `s.strip()`: the result is a slice of `s` with only whitespace before
   * and after it, and it neither starts nor ends with whitespace.
   */
  function Strip(s: string): (r: string)
    ensures exists i, j | 0 <= i <= j <= |s| :: r == s[i..j] && SpacesBetween(s, 0, i) && SpacesBetween(s, j, |s|)
    ensures r == [] || (!IsSpace(r[0]) && !IsSpace(r[|r| - 1]))
  {
    var i := SkipSpaces(s, 0);
    var j := SkipSpacesBack(s, i, |s|);
    s[i..j]
  }

  /** Python's `sep.join(parts)`. */
  function Join(sep: string, parts: seq<string>): string
  {
    if parts == [] then ""
    else if |parts| == 1 then parts[0]
    else Join(sep, parts[..|parts| - 1]) + sep + parts[|parts| - 1]
  }

  function Digit(d: nat): (c: char)
    requires d < 10
    ensures '0' <= c <= '9' && c as int - '0' as int == d
  {
    ('0' as int + d) as char
  }

  predicate AllDigits(s: string)
  {
    forall i | 0 <= i < |s| :: '0' <= s[i] <= '9'
  }

  /** The number a string of decimal digits denotes. */
  function DigitsValue(s: string): nat
    requires AllDigits(s)
  {
    if s == [] then 0 else DigitsValue(s[..|s| - 1]) * 10 + (s[|s| - 1] as int - '0' as int)
  }

  /** `f"{n}"` for a non-negative int: its decimal digits, without leading zeros. */
  function NatToString(n: nat): (s: string)
    ensures s != [] && AllDigits(s)
    ensures DigitsValue(s) == n
    ensures s[0] == '0' ==> n == 0
  {
    if n < 10 then [Digit(n)]
    else
      var s := NatToString(n / 10) + [Digit(n % 10)];
      assert s[..|s| - 1] == NatToString(n / 10);
      s
  }
}
