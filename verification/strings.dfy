/**
 * The parts of Go's `strings` and `unicode` packages that the watchdog uses:
 * `strings.HasPrefix`/`TrimPrefix`, `strings.HasSuffix`/`TrimSuffix`,
 * `unicode.IsSpace` and `strings.Fields`. A Go string is modelled as the
 * sequence of its code points.
 */
module GoStrings {

  predicate HasPrefix(s: string, prefix: string) {
    |prefix| <= |s| && s[..|prefix|] == prefix
  }

  predicate HasSuffix(s: string, suffix: string) {
    |suffix| <= |s| && s[|s| - |suffix|..] == suffix
  }

  /** `strings.TrimPrefix`: drops `prefix` once if `s` starts with it. */
  function TrimPrefix(s: string, prefix: string): (r: string)
    ensures HasPrefix(s, prefix) ==> prefix + r == s
    ensures !HasPrefix(s, prefix) ==> r == s
  {
    if HasPrefix(s, prefix) then s[|prefix|..] else s
  }

  /** `strings.TrimSuffix`: drops `suffix` once if `s` ends with it. */
  function TrimSuffix(s: string, suffix: string): (r: string)
    ensures HasSuffix(s, suffix) ==> r + suffix == s
    ensures !HasSuffix(s, suffix) ==> r == s
  {
    if HasSuffix(s, suffix) then s[..|s| - |suffix|] else s
  }

  lemma TrimPrefixRoundTrip(prefix: string, s: string)
    ensures TrimPrefix(prefix + s, prefix) == s
  {
  }

  lemma TrimSuffixRoundTrip(s: string, suffix: string)
    ensures TrimSuffix(s + suffix, suffix) == s
  {
  }

  /**
   * `unicode.IsSpace`: the Latin-1 white space characters (tab, line feed,
   * vertical tab, form feed, carriage return, space, U+0085, U+00A0) and the
   * other code points of Unicode's White_Space property.
   */
  predicate IsSpace(c: char) {
    c == '\t' || c == '\n' || c == '\U{B}' || c == '\U{C}' || c == '\r' || c == ' '
    || c == '\U{85}' || c == '\U{A0}' || c == '\U{1680}'
    || ('\U{2000}' <= c <= '\U{200A}')
    || c == '\U{2028}' || c == '\U{2029}' || c == '\U{202F}' || c == '\U{205F}' || c == '\U{3000}'
  }

  /**
   * Below U+0100 `unicode.IsSpace` answers from a fixed list of eight
   * characters; above it only the Unicode White_Space table applies.
   */
  lemma IsSpaceLatin1(c: char)
    ensures c <= '\U{FF}' ==>
              (IsSpace(c) <==> c in {'\t', '\n', '\U{B}', '\U{C}', '\r', ' ', '\U{85}', '\U{A0}'})
  {
  }

  predicate NoSpace(s: string) {
    forall i :: 0 <= i < |s| ==> !IsSpace(s[i])
  }

  predicate AllSpace(s: string) {
    forall i :: 0 <= i < |s| ==> IsSpace(s[i])
  }

  /** A field as `strings.Fields` produces it: non-empty and free of white space. */
  predicate IsField(t: string) {
    t != [] && NoSpace(t)
  }

  predicate AllFields(ts: seq<string>) {
    forall k :: 0 <= k < |ts| ==> IsField(ts[k])
  }

  /** Length of the longest white-space-free prefix of `s`. */
  function WordLength(s: string): (n: nat)
    ensures n <= |s|
    ensures NoSpace(s[..n])
    ensures n < |s| ==> IsSpace(s[n])
  {
    if s == [] || IsSpace(s[0]) then 0
    else
      var n := 1 + WordLength(s[1..]);
      assert s[..n] == [s[0]] + s[1..][..n - 1];
      n
  }

  /**
   * `strings.Fields`: the maximal runs of non-white-space characters of `s`,
   * in order; runs of white space only separate them.
   */
  function Fields(s: string): (r: seq<string>)
    ensures AllFields(r)
    decreases |s|
  {
    if s == [] then []
    else if IsSpace(s[0]) then Fields(s[1..])
    else
      var n := WordLength(s);
      [s[..n]] + Fields(s[n..])
  }

  /** The characters of `s` that are not white space, in order. */
  function WithoutSpace(s: string): string {
    if s == [] then []
    else if IsSpace(s[0]) then WithoutSpace(s[1..])
    else [s[0]] + WithoutSpace(s[1..])
  }

  function Concat(ts: seq<string>): string {
    if ts == [] then [] else ts[0] + Concat(ts[1..])
  }

  /** The fields joined with one space between neighbours, as `strings.Join(ts, " ")`. */
  function JoinWithSpace(ts: seq<string>): string {
    if ts == [] then []
    else if |ts| == 1 then ts[0]
    else ts[0] + " " + JoinWithSpace(ts[1..])
  }

  /** `Fields` finds no field exactly when the input is empty or white space only. */
  lemma {:induction false} FieldsEmptyIff(s: string)
    ensures Fields(s) == [] <==> AllSpace(s)
    decreases |s|
  {
    if s != [] {
      if IsSpace(s[0]) {
        FieldsEmptyIff(s[1..]);
        if AllSpace(s[1..]) {
          forall i | 0 <= i < |s| ensures IsSpace(s[i]) {
            if i > 0 { assert s[i] == s[1..][i - 1]; }
          }
        } else {
          var i :| 0 <= i < |s[1..]| && !IsSpace(s[1..][i]);
          assert !IsSpace(s[i + 1]);
        }
      } else {
        assert !IsSpace(s[0]);
      }
    }
  }

  lemma {:induction false} WithoutSpaceAppend(a: string, b: string)
    ensures WithoutSpace(a + b) == WithoutSpace(a) + WithoutSpace(b)
    decreases |a|
  {
    if a == [] {
      assert a + b == b;
    } else {
      assert (a + b)[0] == a[0];
      assert (a + b)[1..] == a[1..] + b;
      WithoutSpaceAppend(a[1..], b);
    }
  }

  lemma {:induction false} WithoutSpaceOfWord(w: string)
    requires NoSpace(w)
    ensures WithoutSpace(w) == w
    decreases |w|
  {
    if w != [] {
      assert !IsSpace(w[0]);
      WithoutSpaceOfWord(w[1..]);
    }
  }

  /** `Fields` loses and reorders nothing but white space. */
  lemma {:induction false} FieldsKeepText(s: string)
    ensures Concat(Fields(s)) == WithoutSpace(s)
    decreases |s|
  {
    if s != [] && !IsSpace(s[0]) {
      var n := WordLength(s);
      assert s == s[..n] + s[n..];
      WithoutSpaceAppend(s[..n], s[n..]);
      WithoutSpaceOfWord(s[..n]);
      FieldsKeepText(s[n..]);
      assert Fields(s)[1..] == Fields(s[n..]);
    } else if s != [] {
      FieldsKeepText(s[1..]);
    }
  }

  lemma {:induction false} WordLengthOfWord(w: string, rest: string)
    requires NoSpace(w)
    requires rest == [] || IsSpace(rest[0])
    ensures WordLength(w + rest) == |w|
    decreases |w|
  {
    if w == [] {
      assert w + rest == rest;
    } else {
      assert !IsSpace(w[0]);
      assert (w + rest)[1..] == w[1..] + rest;
      WordLengthOfWord(w[1..], rest);
    }
  }

  /** A field followed by white space or by nothing is split off whole. */
  lemma FieldsOfWordThen(w: string, rest: string)
    requires IsField(w)
    requires rest == [] || IsSpace(rest[0])
    ensures Fields(w + rest) == [w] + Fields(rest)
  {
    WordLengthOfWord(w, rest);
    assert !IsSpace((w + rest)[0]);
    assert (w + rest)[..|w|] == w;
    assert (w + rest)[|w|..] == rest;
  }

  /** White space in front of the input is skipped: it never makes or changes a field. */
  lemma {:induction false} FieldsSkipsSpace(ws: string, s: string)
    requires AllSpace(ws)
    ensures Fields(ws + s) == Fields(s)
    decreases |ws|
  {
    if ws == [] {
      assert ws + s == s;
    } else {
      assert (ws + s)[0] == ws[0];
      assert IsSpace(ws[0]);
      assert (ws + s)[1..] == ws[1..] + s;
      FieldsSkipsSpace(ws[1..], s);
    }
  }

  /** Joining fields with single spaces and splitting again gives them back. */
  lemma {:induction false} FieldsJoinRoundTrip(ts: seq<string>)
    requires AllFields(ts)
    ensures Fields(JoinWithSpace(ts)) == ts
    decreases |ts|
  {
    if |ts| == 1 {
      FieldsOfWordThen(ts[0], []);
      assert ts[0] + [] == ts[0];
    } else if |ts| > 1 {
      var rest := JoinWithSpace(ts[1..]);
      assert IsField(ts[0]);
      FieldsOfWordThen(ts[0], " " + rest);
      assert ts[0] + " " + rest == ts[0] + (" " + rest);
      assert (" " + rest)[1..] == rest;
      FieldsJoinRoundTrip(ts[1..]);
    }
  }
}
