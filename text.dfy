/**
 * String helpers shared by the Go and Rust models: prefixes, the last
 * space-free word of a message, the UTF-8 length Rust's `str::len` reports,
 * and the byte encoding of ASCII literals for Go strings.
 */
module Text {
  import opened Numeric

  /** A string is a prefix of itself followed by anything. */
  lemma PrefixOfConcat(p: string, rest: string)
    ensures p <= p + rest
  {
    assert (p + rest)[..|p|] == p;
  }

  /** Strings that start with different characters are not prefixes of each other. */
  lemma DifferentLead(p: string, s: string)
    requires p != [] && s != [] && p[0] != s[0]
    ensures !(p <= s)
  {
  }

  /** The longest suffix of `s` holding no space. */
  function LastWord(s: string): (w: string)
    ensures |w| <= |s| && ' ' !in w
    ensures w == s[|s| - |w|..]
  {
    if s == [] || s[|s| - 1] == ' ' then [] else LastWord(s[..|s| - 1]) + [s[|s| - 1]]
  }

  /** After a space, a space-free word is the last word. */
  lemma {:induction false} LastWordAfterSpace(a: string, w: string)
    requires ' ' !in w
    ensures LastWord(a + " " + w) == w
  {
    if w == [] {
      assert (a + " " + w)[|a + " " + w| - 1] == ' ';
    } else {
      var w' := w[..|w| - 1];
      assert (a + " " + w)[..|a + " " + w| - 1] == a + " " + w';
      LastWordAfterSpace(a, w');
    }
  }

  /** The number of bytes UTF-8 uses for one Unicode scalar value. */
  function Utf8Width(c: char): (n: nat)
    ensures 1 <= n <= 4
    ensures n == 1 <==> (c as int) < 0x80
  {
    if (c as int) < 0x80 then 1
    else if (c as int) < 0x800 then 2
    else if (c as int) < 0x1_0000 then 3
    else 4
  }

  /** Rust's `str::len`: the length of the UTF-8 encoding in bytes. */
  function Utf8Len(s: string): (n: nat)
    ensures |s| <= n <= 4 * |s|
  {
    if s == [] then 0 else Utf8Width(s[0]) + Utf8Len(s[1..])
  }

  predicate IsAscii(s: string) { forall i :: 0 <= i < |s| ==> (s[i] as int) < 0x80 }

  /** A string takes at least one and at most four bytes per character. */
  lemma {:induction false} Utf8LenBounds(s: string)
    ensures |s| <= Utf8Len(s) <= 4 * |s|
    ensures Utf8Len(s) == |s| <==> IsAscii(s)
  {
    if s != [] {
      Utf8LenBounds(s[1..]);
      if IsAscii(s[1..]) && (s[0] as int) < 0x80 {
        forall i | 0 <= i < |s| ensures (s[i] as int) < 0x80 {
          if i > 0 { assert s[i] == s[1..][i - 1]; }
        }
      }
      if IsAscii(s) {
        forall i | 0 <= i < |s| - 1 ensures (s[1..][i] as int) < 0x80 {
          assert s[1..][i] == s[i + 1];
        }
      }
    }
  }

  /** The bytes of an ASCII string literal in a Go program. */
  function AsciiBytes(s: string): (b: seq<Byte>)
    requires IsAscii(s)
    ensures |b| == |s| && forall i :: 0 <= i < |s| ==> b[i] == s[i] as int
  {
    seq(|s|, i requires 0 <= i < |s| => s[i] as int)
  }
}
