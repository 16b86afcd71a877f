/**
 * The clean-up applied to the language model's competitor answer before it
 * is parsed as JSON: strip surrounding whitespace, then remove every
 * "```json" and then every "```", each replacement scanning left to right
 * and removing non-overlapping occurrences.
 */
module ResponseCleanup {
  const Fence: string := "```"
  const JsonFence: string := "```json"

  /** The characters Python's `str.strip()` removes: those `str.isspace()` accepts. */
  predicate IsSpace(c: char)
  {
    || '\t' <= c <= '\r'
    || '\U{1C}' <= c <= ' '
    || c == '\U{85}' || c == '\U{A0}' || c == '\U{1680}'
    || '\U{2000}' <= c <= '\U{200A}'
    || c == '\U{2028}' || c == '\U{2029}' || c == '\U{202F}' || c == '\U{205F}' || c == '\U{3000}'
  }

  function LeadingSpaces(s: string): (n: nat)
    ensures n <= |s|
    ensures forall i :: 0 <= i < n ==> IsSpace(s[i])
    ensures n < |s| ==> !IsSpace(s[n])
  {
    if s == [] || !IsSpace(s[0]) then 0 else 1 + LeadingSpaces(s[1..])
  }

  function TrailingSpaces(s: string): (n: nat)
    ensures n <= |s|
    ensures forall i :: |s| - n <= i < |s| ==> IsSpace(s[i])
    ensures n < |s| ==> !IsSpace(s[|s| - 1 - n])
  {
    if s == [] || !IsSpace(s[|s| - 1]) then 0 else 1 + TrailingSpaces(s[..|s| - 1])
  }

  /**
   * `str.strip()`: the stretch of `s` that remains once whitespace is
   * removed from both ends.  Everything removed is whitespace and the
   * remainder neither starts nor ends with whitespace.
   */
  function Strip(s: string): (t: string)
    ensures LeadingSpaces(s) + |t| <= |s| && t == s[LeadingSpaces(s)..LeadingSpaces(s) + |t|]
    ensures forall i :: 0 <= i < |s| && !(LeadingSpaces(s) <= i < LeadingSpaces(s) + |t|) ==> IsSpace(s[i])
    ensures t != [] ==> !IsSpace(t[0]) && !IsSpace(t[|t| - 1])
  {
    var rest := s[LeadingSpaces(s)..];
    rest[..|rest| - TrailingSpaces(rest)]
  }

  /** Stripping twice is stripping once. */
  lemma StripIdempotent(s: string)
    ensures Strip(Strip(s)) == Strip(s)
  {
    var t := Strip(s);
    assert LeadingSpaces(t) == 0;
    assert t[0..] == t;
    assert TrailingSpaces(t) == 0;
  }

  /** `pat` occurs in `t` starting at index `i`. */
  predicate OccursAt(t: string, pat: string, i: nat)
  {
    i + |pat| <= |t| && t[i..i + |pat|] == pat
  }

  /**
   * `s.replace(pat, "")`: scanning from the left, each occurrence of `pat`
   * is dropped and scanning resumes after it.
   */
  function RemoveAll(s: string, pat: string): (t: string)
    requires pat != []
    ensures |t| <= |s|
    decreases |s|
  {
    if s == [] then []
    else if pat <= s then RemoveAll(s[|pat|..], pat)
    else [s[0]] + RemoveAll(s[1..], pat)
  }

  /** The replacement only removes characters: every character left was in the text, as often. */
  lemma {:induction false} RemovesOnlyCharacters(s: string, pat: string)
    requires pat != []
    ensures multiset(RemoveAll(s, pat)) <= multiset(s)
    decreases |s|
  {
    if s != [] {
      if pat <= s {
        RemovesOnlyCharacters(s[|pat|..], pat);
        assert s == s[..|pat|] + s[|pat|..];
      } else {
        RemovesOnlyCharacters(s[1..], pat);
        assert s == [s[0]] + s[1..];
      }
    }
  }

  /**
   * a is what is left of b after deleting some of its characters: a
   * subsequence, in order.
   */
  predicate IsSubsequence(a: string, b: string)
    decreases |b|
  {
    if b == [] then a == []
    else (a != [] && a[0] == b[0] && IsSubsequence(a[1..], b[1..])) || IsSubsequence(a, b[1..])
  }

  /** Deleting a prefix of b keeps every subsequence of what is left a subsequence of b. */
  lemma {:induction false} SubsequenceOfSuffix(a: string, b: string, k: nat)
    requires k <= |b| && IsSubsequence(a, b[k..])
    ensures IsSubsequence(a, b)
  {
    if k > 0 {
      assert b[k - 1..][1..] == b[k..];
      SubsequenceOfSuffix(a, b, k - 1);
    }
  }

  lemma {:induction false} SubsequenceTransitive(a: string, b: string, c: string)
    requires IsSubsequence(a, b) && IsSubsequence(b, c)
    ensures IsSubsequence(a, c)
    decreases |c|
  {
    if c != [] {
      if b != [] && b[0] == c[0] && IsSubsequence(b[1..], c[1..]) {
        if a != [] && a[0] == b[0] && IsSubsequence(a[1..], b[1..]) {
          SubsequenceTransitive(a[1..], b[1..], c[1..]);
        } else {
          SubsequenceTransitive(a, b[1..], c[1..]);
        }
      } else {
        SubsequenceTransitive(a, b, c[1..]);
      }
    }
  }

  /** The replacement only deletes: what is left is the text with some characters taken out, in order. */
  lemma {:induction false} RemoveAllIsSubsequence(s: string, pat: string)
    requires pat != []
    ensures IsSubsequence(RemoveAll(s, pat), s)
    decreases |s|
  {
    if s != [] {
      if pat <= s {
        RemoveAllIsSubsequence(s[|pat|..], pat);
        SubsequenceOfSuffix(RemoveAll(s, pat), s, |pat|);
      } else {
        var rest := RemoveAll(s[1..], pat);
        RemoveAllIsSubsequence(s[1..], pat);
        assert ([s[0]] + rest)[1..] == rest;
      }
    }
  }

  /**
   * The cleaned answer: the stripped answer with characters deleted and the
   * rest kept in order, no fence of either kind left, and no longer than the
   * answer.
   */
  function Clean(response: string): (cleaned: string)
    ensures |cleaned| <= |response|
    ensures IsSubsequence(cleaned, Strip(response))
    ensures forall i :: !OccursAt(cleaned, Fence, i)
    ensures forall i :: !OccursAt(cleaned, JsonFence, i)
  {
    var unfenced := RemoveAll(Strip(response), JsonFence);
    RemoveAllIsSubsequence(Strip(response), JsonFence);
    RemoveAllIsSubsequence(unfenced, Fence);
    SubsequenceTransitive(RemoveAll(unfenced, Fence), unfenced, Strip(response));
    NoFenceAfterRemoval(unfenced);
    NoJsonFenceWithoutFence(RemoveAll(unfenced, Fence));
    RemoveAll(unfenced, Fence)
  }

  function Ticks(n: nat): (t: string)
    ensures |t| == n && forall k :: 0 <= k < n ==> t[k] == '`'
  {
    seq(n, _ => '`')
  }

  /** Length of the run of backticks `s` starts with. */
  function LeadingTicks(s: string): (n: nat)
    ensures n <= |s| && s[..n] == Ticks(n)
    ensures n < |s| ==> s[n] != '`'
  {
    if s == [] || s[0] != '`' then 0 else 1 + LeadingTicks(s[1..])
  }

  /** A run of at least three backticks loses its first three. */
  lemma DropFence(n: nat, u: string)
    requires n >= 3
    ensures RemoveAll(Ticks(n) + u, Fence) == RemoveAll(Ticks(n - 3) + u, Fence)
  {
    var w := Ticks(n) + u;
    assert w[..3] == Fence;
    assert w[3..] == Ticks(n - 3) + u;
  }

  /** A backtick followed by something other than two more backticks is no fence: it is kept. */
  lemma KeepTick(v: string)
    requires |v| < 2 || v[..2] != "``"
    ensures RemoveAll(['`'] + v, Fence) == ['`'] + RemoveAll(v, Fence)
  {
    var w := ['`'] + v;
    if |w| >= 3 {
      assert w[..3][1..] == v[..2];
      assert Fence[1..] == "``";
    }
    assert !(Fence <= w);
    assert w[1..] == v;
  }

  /** A run of one or two backticks, followed by something else, passes through whole. */
  lemma KeepShortRun(n: nat, u: string)
    requires 0 < n < 3
    requires u == [] || u[0] != '`'
    ensures RemoveAll(Ticks(n) + u, Fence) == Ticks(n) + RemoveAll(u, Fence)
  {
    if n == 1 {
      KeepOneTick(u);
    } else {
      KeepTwoTicks(u);
    }
  }

  lemma KeepOneTick(u: string)
    requires u == [] || u[0] != '`'
    ensures RemoveAll(Ticks(1) + u, Fence) == Ticks(1) + RemoveAll(u, Fence)
  {
    assert Ticks(1) == ['`'];
    assert |u| < 2 || u[..2][0] != '`';
    KeepTick(u);
  }

  lemma KeepTwoTicks(u: string)
    requires u == [] || u[0] != '`'
    ensures RemoveAll(Ticks(2) + u, Fence) == Ticks(2) + RemoveAll(u, Fence)
  {
    var once := ['`'] + u;
    assert Ticks(2) + u == ['`'] + once;
    if |u| > 0 {
      assert once[..2][1] == u[0];
    }
    KeepTick(once);
    assert |u| < 2 || u[..2][0] != '`';
    KeepTick(u);
    var rest := RemoveAll(u, Fence);
    assert Ticks(2) + rest == ['`'] + (['`'] + rest);
  }

  /** The facts about n mod 3 the run arithmetic needs. */
  lemma ModThree(n: nat)
    ensures n % 3 < 3
    ensures n >= 3 ==> (n - 3) % 3 == n % 3
    ensures n < 3 ==> n % 3 == n
  {
  }

  /** A run of n backticks loses three at a time: n mod 3 of them survive. */
  lemma {:induction false} RunRemoval(n: nat, u: string)
    requires u == [] || u[0] != '`'
    ensures RemoveAll(Ticks(n) + u, Fence) == Ticks(n % 3) + RemoveAll(u, Fence)
    decreases n
  {
    if n >= 3 {
      DropFence(n, u);
      RunRemoval(n - 3, u);
      ModThree(n);
    } else if n > 0 {
      KeepShortRun(n, u);
      ModThree(n);
    } else {
      assert Ticks(n) + u == u;
    }
  }

  /** A window into the tail of a concatenation is a window into the tail. */
  lemma SliceOfSuffix(pre: string, t: string, i: nat, len: nat)
    requires |pre| <= i && i + len <= |pre| + |t|
    ensures (pre + t)[i..i + len] == t[i - |pre|..i - |pre| + len]
  {
    var inWhole := (pre + t)[i..i + len];
    var inTail := t[i - |pre|..i - |pre| + len];
    assert forall k :: 0 <= k < len ==> inWhole[k] == inTail[k];
  }

  /** Fewer than three backticks and a non-backtick in front of fence-free text form no fence. */
  lemma NoFenceJoin(m: nat, c: char, t: string)
    requires m < 3 && c != '`'
    requires forall i :: !OccursAt(t, Fence, i)
    ensures forall i :: !OccursAt(Ticks(m) + [c] + t, Fence, i)
  {
    var pre := Ticks(m) + [c];
    var w := pre + t;
    forall i: nat ensures !OccursAt(w, Fence, i) {
      if i + 3 <= |w| {
        if i > m {
          SliceOfSuffix(pre, t, i, 3);
          assert !OccursAt(t, Fence, i - m - 1);
        } else {
          assert w[m] == c;
          assert w[i..i + 3][m - i] == c;
          assert Fence[m - i] == '`';
        }
      }
    }
  }

  /** A text that does not start with a backtick keeps its first character. */
  lemma KeepNonTick(v: string)
    requires v != [] && v[0] != '`'
    ensures RemoveAll(v, Fence) == [v[0]] + RemoveAll(v[1..], Fence)
  {
    assert !(Fence <= v);
  }

  /** After `replace("```", "")` no "```" is left: runs of backticks keep at most two. */
  lemma {:induction false} NoFenceAfterRemoval(u: string)
    ensures forall i :: !OccursAt(RemoveAll(u, Fence), Fence, i)
    decreases |u|
  {
    var n := LeadingTicks(u);
    var v := u[n..];
    assert u == Ticks(n) + v;
    RunRemoval(n, v);
    ModThree(n);
    if v == [] {
      assert RemoveAll(u, Fence) == Ticks(n % 3);
    } else {
      var rest := RemoveAll(v[1..], Fence);
      KeepNonTick(v);
      NoFenceAfterRemoval(v[1..]);
      NoFenceJoin(n % 3, v[0], rest);
      assert Ticks(n % 3) + ([v[0]] + rest) == Ticks(n % 3) + [v[0]] + rest;
    }
  }

  /** "```json" begins with "```". */
  lemma NoJsonFenceWithoutFence(t: string)
    requires forall i :: !OccursAt(t, Fence, i)
    ensures forall i :: !OccursAt(t, JsonFence, i)
  {
    forall i: nat ensures !OccursAt(t, JsonFence, i) {
      if i + |JsonFence| <= |t| {
        assert t[i..i + 3] == t[i..i + |JsonFence|][..3];
        assert !OccursAt(t, Fence, i);
      }
    }
  }

  /** Text in which `pat` never occurs has no occurrence after its first character either. */
  lemma NoOccurrenceInTail(x: string, pat: string)
    requires x != [] && forall i :: !OccursAt(x, pat, i)
    ensures forall i :: !OccursAt(x[1..], pat, i)
  {
    assert x == [x[0]] + x[1..];
    forall i: nat ensures !OccursAt(x[1..], pat, i) {
      if i + |pat| <= |x| - 1 {
        SliceOfSuffix([x[0]], x[1..], i + 1, |pat|);
        assert !OccursAt(x, pat, i + 1);
      }
    }
  }

  /** Text in which `pat` never occurs is left as it is. */
  lemma {:induction false} NoOccurrenceUnchanged(x: string, pat: string)
    requires pat != []
    requires forall i :: !OccursAt(x, pat, i)
    ensures RemoveAll(x, pat) == x
    decreases |x|
  {
    if x != [] {
      assert !OccursAt(x, pat, 0);
      if |pat| <= |x| {
        assert x[0..|pat|] == x[..|pat|];
      }
      assert !(pat <= x);
      NoOccurrenceInTail(x, pat);
      NoOccurrenceUnchanged(x[1..], pat);
      assert x == [x[0]] + x[1..];
    }
  }

  /** A prefix without backticks passes through the removal of a backtick pattern unchanged. */
  lemma {:induction false} TickFreePrefix(x: string, y: string, pat: string)
    requires pat != [] && pat[0] == '`'
    requires forall k :: 0 <= k < |x| ==> x[k] != '`'
    ensures RemoveAll(x + y, pat) == x + RemoveAll(y, pat)
    decreases |x|
  {
    if x == [] {
      assert x + y == y;
    } else {
      assert (x + y)[0] == x[0];
      assert !(pat <= x + y);
      assert (x + y)[1..] == x[1..] + y;
      TickFreePrefix(x[1..], y, pat);
      assert x == [x[0]] + x[1..];
    }
  }

  /** An answer wrapped as a fenced JSON block comes out as the bare block. */
  lemma CleanUnwrapsFencedJson(body: string)
    requires forall k :: 0 <= k < |body| ==> body[k] != '`'
    ensures Clean(JsonFence + body + Fence) == body
  {
    var w := JsonFence + body + Fence;
    assert LeadingSpaces(w) == 0;
    assert w[0..] == w;
    assert TrailingSpaces(w) == 0;
    assert Strip(w) == w;
    assert JsonFence <= w;
    assert w[|JsonFence|..] == body + Fence;
    TickFreePrefix(body, Fence, JsonFence);
    assert !(JsonFence <= Fence);
    assert Fence[1..] == "``" && "``"[1..] == "`" && "`"[1..] == [];
    assert RemoveAll(Fence, JsonFence) == Fence;
    TickFreePrefix(body, Fence, Fence);
    assert Fence <= Fence && Fence[|Fence|..] == [];
    assert body + [] == body;
  }

  /** Without backticks in the answer the clean-up is just `strip()`. */
  lemma CleanOfTickFreeText(s: string)
    requires forall k :: 0 <= k < |s| ==> s[k] != '`'
    ensures Clean(s) == Strip(s)
  {
    var t := Strip(s);
    var lo := LeadingSpaces(s);
    assert forall k :: 0 <= k < |t| ==> t[k] == s[lo + k];
    TickFreePrefix(t, [], JsonFence);
    TickFreePrefix(t, [], Fence);
    assert t + [] == t;
  }

  /** An occurrence in a slice of `t` is an occurrence in `t`. */
  lemma OccurrenceInSlice(t: string, lo: nat, hi: nat, pat: string, i: nat)
    requires lo <= hi <= |t|
    requires OccursAt(t[lo..hi], pat, i)
    ensures OccursAt(t, pat, lo + i)
  {
    var inSlice := t[lo..hi][i..i + |pat|];
    var inText := t[lo + i..lo + i + |pat|];
    assert forall k :: 0 <= k < |pat| ==> inSlice[k] == inText[k];
    assert inSlice == inText;
  }

  /** Stripping cannot create an occurrence: the stripped text is a slice. */
  lemma StripKeepsAbsence(c: string, pat: string)
    requires forall i :: !OccursAt(c, pat, i)
    ensures forall i :: !OccursAt(Strip(c), pat, i)
  {
    var t := Strip(c);
    var lo := LeadingSpaces(c);
    forall i: nat ensures !OccursAt(t, pat, i) {
      if OccursAt(t, pat, i) {
        OccurrenceInSlice(c, lo, lo + |t|, pat, i);
      }
    }
  }

  /** Cleaning a cleaned answer only strips it again: no fence is left to remove. */
  lemma CleanAgainOnlyStrips(s: string)
    ensures Clean(Clean(s)) == Strip(Clean(s))
  {
    var c := Clean(s);
    var t := Strip(c);
    StripKeepsAbsence(c, Fence);
    StripKeepsAbsence(c, JsonFence);
    NoOccurrenceUnchanged(t, JsonFence);
    NoOccurrenceUnchanged(t, Fence);
  }
}
