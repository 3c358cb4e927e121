/**
 * String and path helpers used by the server manager: Python's `str.strip()`,
 * ASCII `str.lower()`, substring and suffix tests, POSIX `os.path.isabs` and
 * `os.path.join`, and Python's ordering of strings (code point by code point).
 */
module Text {

  datatype Option<T> = None | Some(value: T) {
    /** The value, or `default` when absent (Python's `dict.get(key, default)`). */
    function GetOr(default: T): T {
      if Some? then value else default
    }
  }

  /** The outcome of one HTTP request: the decoded body, or a transport, status or decoding failure. */
  datatype Response<T> = Ok(body: T) | Failed

  // ---------------------------------------------------------------------------
  // Whitespace and str.strip()

  /** The characters for which Python's `str.isspace()` holds; `str.strip()` removes exactly these. */
  predicate IsSpace(c: char) {
    ('\U{9}' <= c <= '\U{D}') || ('\U{1C}' <= c <= '\U{20}') || c == '\U{85}' || c == '\U{A0}'
    || c == '\U{1680}' || ('\U{2000}' <= c <= '\U{200A}') || c == '\U{2028}' || c == '\U{2029}'
    || c == '\U{202F}' || c == '\U{205F}' || c == '\U{3000}'
  }

  predicate AllSpace(s: string) {
    forall i :: 0 <= i < |s| ==> IsSpace(s[i])
  }

  /** Neither end of `s` is whitespace. */
  predicate Stripped(s: string) {
    s == [] || (!IsSpace(s[0]) && !IsSpace(s[|s| - 1]))
  }

  function TrimLeft(s: string): string {
    if s != [] && IsSpace(s[0]) then TrimLeft(s[1..]) else s
  }

  function TrimRight(s: string): string {
    if s != [] && IsSpace(s[|s| - 1]) then TrimRight(s[..|s| - 1]) else s
  }

  /** Python's `s.strip()`. */
  function Strip(s: string): string {
    TrimRight(TrimLeft(s))
  }

  lemma {:induction false} TrimLeftSplits(s: string) returns (pre: string)
    ensures s == pre + TrimLeft(s) && AllSpace(pre)
    ensures TrimLeft(s) == [] || !IsSpace(TrimLeft(s)[0])
  {
    if s != [] && IsSpace(s[0]) {
      var p := TrimLeftSplits(s[1..]);
      pre := [s[0]] + p;
    } else {
      pre := [];
    }
  }

  lemma {:induction false} TrimRightSplits(s: string) returns (post: string)
    ensures s == TrimRight(s) + post && AllSpace(post)
    ensures TrimRight(s) == [] || !IsSpace(TrimRight(s)[|TrimRight(s)| - 1])
  {
    if s != [] && IsSpace(s[|s| - 1]) {
      var p := TrimRightSplits(s[..|s| - 1]);
      post := p + [s[|s| - 1]];
      assert s == s[..|s| - 1] + [s[|s| - 1]];
    } else {
      post := [];
    }
  }

  lemma {:induction false} TrimRightKeepsHead(s: string)
    requires s == [] || !IsSpace(s[0])
    ensures TrimRight(s) == [] || TrimRight(s)[0] == s[0]
  {
    if s != [] && IsSpace(s[|s| - 1]) {
      if |s| > 1 {
        TrimRightKeepsHead(s[..|s| - 1]);
      }
    }
  }

  /**
   * `Strip(s)` is `s` with a run of whitespace cut off each end, and what is
   * left begins and ends with a non-whitespace character: it is Python's strip.
   */
  lemma StripSplits(s: string) returns (pre: string, post: string)
    ensures s == pre + Strip(s) + post
    ensures AllSpace(pre) && AllSpace(post)
    ensures Stripped(Strip(s))
  {
    pre := TrimLeftSplits(s);
    post := TrimRightSplits(TrimLeft(s));
    TrimRightKeepsHead(TrimLeft(s));
  }

  /** Stripping leaves nothing exactly when the input is all whitespace. */
  lemma StripEmptyIff(s: string)
    ensures Strip(s) == [] <==> AllSpace(s)
  {
    var pre, post := StripSplits(s);
    if Strip(s) != [] {
      assert s[|pre|] == Strip(s)[0];
      assert !IsSpace(s[|pre|]);
    } else {
      assert s == pre + post;
    }
  }

  // ---------------------------------------------------------------------------
  // Case, substrings, suffixes

  function LowerChar(c: char): char {
    if 'A' <= c <= 'Z' then (c as int + 32) as char else c
  }

  /** `str.lower()` on the ASCII letters. */
  function Lower(s: string): (r: string)
    ensures |r| == |s| && forall i :: 0 <= i < |s| ==> r[i] == LowerChar(s[i])
  {
    seq(|s|, i requires 0 <= i < |s| => LowerChar(s[i]))
  }

  /** Python's `sub in s` on strings. */
  predicate Contains(s: string, sub: string)
    decreases |s|
  {
    sub <= s || (s != [] && Contains(s[1..], sub))
  }

  predicate EndsWith(s: string, suffix: string) {
    |suffix| <= |s| && s[|s| - |suffix|..] == suffix
  }

  // ---------------------------------------------------------------------------
  // POSIX paths

  /** `os.path.isabs` on POSIX. */
  predicate IsAbs(p: string) {
    |p| > 0 && p[0] == '/'
  }

  /** `os.path.join(a, b)` on POSIX. */
  function Join(a: string, b: string): (r: string)
    ensures IsAbs(b) ==> r == b
    ensures !IsAbs(b) ==> a <= r && EndsWith(r, b) && (IsAbs(a) ==> IsAbs(r))
    ensures !IsAbs(b) && a != [] && a[|a| - 1] != '/' ==> r == a + "/" + b
  {
    if IsAbs(b) then b
    else if a == [] || a[|a| - 1] == '/' then a + b
    else a + "/" + b
  }

  // ---------------------------------------------------------------------------
  // Python's string order

  /** `a <= b` for Python strings: code-point lexicographic, a prefix first. */
  predicate LexLe(a: string, b: string)
    decreases |a|
  {
    a == [] || (b != [] && (a[0] < b[0] || (a[0] == b[0] && LexLe(a[1..], b[1..]))))
  }

  lemma {:induction false} LexLeTotal(a: string, b: string)
    ensures LexLe(a, b) || LexLe(b, a)
  {
    if a != [] && b != [] && a[0] == b[0] {
      LexLeTotal(a[1..], b[1..]);
    }
  }

  lemma {:induction false} LexLeTransitive(a: string, b: string, c: string)
    requires LexLe(a, b) && LexLe(b, c)
    ensures LexLe(a, c)
  {
    if a != [] && a[0] == b[0] && b[0] == c[0] {
      LexLeTransitive(a[1..], b[1..], c[1..]);
    }
  }

  lemma {:induction false} LexLeAntisymmetric(a: string, b: string)
    requires LexLe(a, b) && LexLe(b, a)
    ensures a == b
  {
    if a != [] && b != [] {
      LexLeAntisymmetric(a[1..], b[1..]);
    }
  }
}
