/** Strings as JavaScript's `String.prototype.trim`, `toLowerCase` and the regular
    expression class `\s` see them, over an explicit character set. */
module Text {

  /** The characters JavaScript counts as white space (`\s`, and what `trim` strips):
      tab, line feed, vertical tab, form feed, carriage return, space, no-break space,
      the Unicode space separators, the line and paragraph separators and the
      byte-order mark. */
  predicate IsSpace(c: char) {
    || ('\t' <= c <= '\r')
    || c == ' '
    || c as int == 0x00A0
    || c as int == 0x1680
    || (0x2000 <= c as int <= 0x200A)
    || c as int == 0x2028
    || c as int == 0x2029
    || c as int == 0x202F
    || c as int == 0x205F
    || c as int == 0x3000
    || c as int == 0xFEFF
  }

  predicate AllSpace(s: string) {
    forall k | 0 <= k < |s| :: IsSpace(s[k])
  }

  /** `s` with its leading white space removed: a suffix of `s`. */
  function TrimStart(s: string): (r: string)
    ensures |r| <= |s| && r == s[|s| - |r|..]
    ensures r != [] ==> !IsSpace(r[0])
    ensures forall k | 0 <= k < |s| - |r| :: IsSpace(s[k])
  {
    if s != [] && IsSpace(s[0]) then TrimStart(s[1..]) else s
  }

  /** `s` with its trailing white space removed: a prefix of `s`. */
  function TrimEnd(s: string): (r: string)
    ensures |r| <= |s| && r == s[..|r|]
    ensures r != [] ==> !IsSpace(r[|r| - 1])
    ensures forall k | |r| <= k < |s| :: IsSpace(s[k])
  {
    if s != [] && IsSpace(s[|s| - 1]) then TrimEnd(s[..|s| - 1]) else s
  }

  /** `String.prototype.trim`: what remains has white space at neither end, and is the
      slice of `s` left once a run of white space is cut from each end. */
  function Trim(s: string): (r: string)
    ensures Trimmed(r)
    ensures |r| <= |s|
    ensures exists a | 0 <= a && a + |r| <= |s| ::
      r == s[a..a + |r|] && AllSpace(s[..a]) && AllSpace(s[a + |r|..])
  {
    var t := TrimStart(s);
    var r := TrimEnd(t);
    assert r != [] ==> r[0] == t[0];
    var a := |s| - |t|;
    CutEnds(s, t, r);
    assert r == s[a..a + |r|] && AllSpace(s[..a]) && AllSpace(s[a + |r|..]);
    r
  }

  /** Cutting a run of white space from the front of `s` and then from the back leaves
      a slice of `s` with only white space around it. */
  lemma CutEnds(s: string, t: string, r: string)
    requires |t| <= |s| && t == s[|s| - |t|..]
    requires |r| <= |t| && r == t[..|r|]
    requires forall k | 0 <= k < |s| - |t| :: IsSpace(s[k])
    requires forall k | |r| <= k < |t| :: IsSpace(t[k])
    ensures r == s[|s| - |t|..|s| - |t| + |r|]
    ensures AllSpace(s[..|s| - |t|]) && AllSpace(s[|s| - |t| + |r|..])
  {
    var a := |s| - |t|;
    var rest := s[a + |r|..];
    assert AllSpace(rest) by {
      forall k | 0 <= k < |rest| ensures IsSpace(rest[k]) {
        assert rest[k] == t[|r| + k];
      }
    }
  }

  /** A string trims to nothing exactly when every character of it is white space. */
  lemma TrimEmptyIffBlank(s: string)
    ensures Trim(s) == "" <==> AllSpace(s)
  {
    var t := TrimStart(s);
    if Trim(s) == "" {
      // what remains after the leading white space would start with a non-space
      assert t == [];
    } else {
      var r := Trim(s);
      assert r[0] == t[0];
      assert t[0] == s[|s| - |t|];
    }
  }

  /** Neither end of `s` is white space. */
  predicate Trimmed(s: string) {
    s == [] || (!IsSpace(s[0]) && !IsSpace(s[|s| - 1]))
  }

  /** Trimming changes a string exactly when one of its ends is white space. */
  lemma TrimmedIffUnchanged(s: string)
    ensures Trim(s) == s <==> Trimmed(s)
  {
    if s != [] && Trim(s) == s {
      assert TrimStart(s) == s by {
        assert |Trim(s)| <= |TrimStart(s)|;
      }
    }
  }

  /** `toLowerCase` on one character, for the ASCII letters only. */
  function LowerChar(c: char): (r: char)
    ensures 'A' <= c <= 'Z' ==> r as int == c as int + 32
    ensures !('A' <= c <= 'Z') ==> r == c
  {
    if 'A' <= c <= 'Z' then (c as int + 32) as char else c
  }

  function Lower(s: string): (r: string)
    ensures |r| == |s|
    ensures forall k | 0 <= k < |s| :: r[k] == LowerChar(s[k])
  {
    seq(|s|, k requires 0 <= k < |s| => LowerChar(s[k]))
  }

  /** `c` and `d` are the same character up to the case of an ASCII letter. */
  predicate SameIgnoringCase(c: char, d: char) {
    || c == d
    || ('A' <= c <= 'Z' && d as int == c as int + 32)
    || ('A' <= d <= 'Z' && c as int == d as int + 32)
  }

  lemma LowerCharAgree(c: char, d: char)
    ensures LowerChar(c) == LowerChar(d) <==> SameIgnoringCase(c, d)
  {
  }

  /** Two strings lower-case alike exactly when they have the same length and agree
      character by character up to the case of ASCII letters. */
  lemma LowerEqualIff(a: string, b: string)
    ensures Lower(a) == Lower(b) <==>
      |a| == |b| && forall k | 0 <= k < |a| :: SameIgnoringCase(a[k], b[k])
  {
    if |a| == |b| && forall k | 0 <= k < |a| :: SameIgnoringCase(a[k], b[k]) {
      forall k | 0 <= k < |a| ensures Lower(a)[k] == Lower(b)[k] {
        LowerCharAgree(a[k], b[k]);
      }
    }
    if Lower(a) == Lower(b) {
      forall k | 0 <= k < |a| ensures SameIgnoringCase(a[k], b[k]) {
        assert Lower(a)[k] == Lower(b)[k];
        LowerCharAgree(a[k], b[k]);
      }
    }
  }

  /** Lower-casing twice is lower-casing once. */
  lemma LowerIdempotent(s: string)
    ensures Lower(Lower(s)) == Lower(s)
  {
  }
}
