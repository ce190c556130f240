/** Kotlin's whitespace test, `isBlank` and `trim`, as the shell-command
    normalisation and the disable-success test use them. */
module Text {

  /** Kotlin's `Char.isWhitespace` on the JVM: Java whitespace (the ASCII
      controls tab to carriage return, the four separators U+001C..U+001F and
      the Unicode space/line/paragraph separators) or a Unicode space
      separator, which adds the no-break spaces. */
  predicate IsWhitespace(c: char) {
    var n := c as int;
    (9 <= n <= 13) || (28 <= n <= 32) || n == 0xA0 || n == 0x1680 ||
    (0x2000 <= n <= 0x200A) || n == 0x2028 || n == 0x2029 || n == 0x202F ||
    n == 0x205F || n == 0x3000
  }

  /** Kotlin's `CharSequence.isBlank`: empty or whitespace only. */
  predicate IsBlank(s: string) {
    forall i :: 0 <= i < |s| ==> IsWhitespace(s[i])
  }

  /** Neither end of `s` is whitespace (vacuously true of the empty string). */
  predicate HasNoOuterWhitespace(s: string) {
    s == [] || (!IsWhitespace(s[0]) && !IsWhitespace(s[|s| - 1]))
  }

  /** Kotlin's `trim` scans forward from `i` past whitespace: the result is
      the first position at or after `i` that is not whitespace, or `|s|`. */
  function StartIndex(s: string, i: nat): (k: nat)
    requires i <= |s|
    ensures i <= k <= |s|
    ensures forall j :: i <= j < k ==> IsWhitespace(s[j])
    ensures k < |s| ==> !IsWhitespace(s[k])
    decreases |s| - i
  {
    if i < |s| && IsWhitespace(s[i]) then StartIndex(s, i + 1) else i
  }

  /** ... and then backward from `hi` down to `lo`: the result is the end of
      the last character before `hi` that is not whitespace, or `lo`. */
  function EndIndex(s: string, lo: nat, hi: nat): (e: nat)
    requires lo <= hi <= |s|
    ensures lo <= e <= hi
    ensures forall j :: e <= j < hi ==> IsWhitespace(s[j])
    ensures lo < e ==> !IsWhitespace(s[e - 1])
    decreases hi
  {
    if lo < hi && IsWhitespace(s[hi - 1]) then EndIndex(s, lo, hi - 1) else hi
  }

  /** Kotlin's `String.trim()`: the slice between the first and the last
      character that is not whitespace. The result has no outer whitespace,
      so it is blank exactly when it is empty, and it is empty exactly when
      the input was blank. */
  function Trim(s: string): (r: string)
    ensures HasNoOuterWhitespace(r)
    ensures IsBlank(r) <==> r == []
    ensures r == [] <==> IsBlank(s)
  {
    var start := StartIndex(s, 0);
    var end := EndIndex(s, start, |s|);
    assert start < end ==> s[start..end][0] == s[start];
    assert start < end ==> s[start..end][end - start - 1] == s[end - 1];
    s[start..end]
  }

  /** Reference characterisation of `Trim`: surrounding a string without outer
      whitespace by blank text on either side and trimming gives it back. */
  lemma TrimRemovesExactlyOuterWhitespace(lead: string, core: string, trail: string)
    requires IsBlank(lead) && IsBlank(trail)
    requires HasNoOuterWhitespace(core)
    ensures Trim(lead + core + trail) == core
  {
    var s := lead + core + trail;
    assert forall j :: 0 <= j < |lead| ==> s[j] == lead[j];
    assert forall j :: 0 <= j < |core| ==> s[|lead| + j] == core[j];
    assert forall j :: 0 <= j < |trail| ==> s[|lead| + |core| + j] == trail[j];
    if core == [] {
      assert IsBlank(s) by {
        forall j | 0 <= j < |s| ensures IsWhitespace(s[j]) {
          if j < |lead| { assert s[j] == lead[j]; }
          else { assert s[j] == trail[j - |lead|]; }
        }
      }
    } else {
      var start := StartIndex(s, 0);
      assert start == |lead|;
      var end := EndIndex(s, start, |s|);
      var e := |lead| + |core|;
      assert end == e;
      assert s[start..end] == core;
    }
  }

  /** Trimming an already trimmed string changes nothing. */
  lemma TrimIdempotent(s: string)
    ensures Trim(Trim(s)) == Trim(s)
  {
    var r := Trim(s);
    assert [] + r + [] == r;
    TrimRemovesExactlyOuterWhitespace([], r, []);
  }
}
