/**
 * The ECMAScript string operations the ingest pipeline relies on:
 * `trim`, `substring` with out-of-range clamping, and `split` on one
 * separator character.
 */
module Strings {

  /**
   * White space removed by `String.prototype.trim` and skipped by `parseInt`
   * and `parseFloat`: tab, vertical tab, form feed, the byte-order mark, the
   * space separators (U+0020, U+00A0, U+1680, U+2000 to U+200A, U+202F,
   * U+205F, U+3000) and the line terminators (LF, CR, U+2028, U+2029).
   */
  predicate IsSpace(c: char) {
    || c == '\t' || c == '\U{0B}' || c == '\U{0C}' || c == '\U{FEFF}'
    || c == ' ' || c == '\U{A0}' || c == '\U{1680}' || ('\U{2000}' <= c <= '\U{200A}')
    || c == '\U{202F}' || c == '\U{205F}' || c == '\U{3000}'
    || c == '\n' || c == '\r' || c == '\U{2028}' || c == '\U{2029}'
  }

  predicate AllSpace(s: string) {
    forall i :: 0 <= i < |s| ==> IsSpace(s[i])
  }

  /** `s.trimEnd()`: drops the trailing white space, one character at a time. */
  function TrimEnd(s: string): (r: string)
    ensures |r| <= |s|
    ensures r != [] ==> !IsSpace(r[|r| - 1])
  {
    if |s| > 0 && IsSpace(s[|s| - 1]) then TrimEnd(s[..|s| - 1]) else s
  }

  /**
   * `s.trim()`: drops the leading white space one character at a time, then
   * the trailing white space; what is left starts and ends with a
   * character that is not white space.
   */
  function Trim(s: string): (r: string)
    ensures |r| <= |s|
    ensures r != [] ==> !IsSpace(r[0]) && !IsSpace(r[|r| - 1])
  {
    if |s| > 0 && IsSpace(s[0]) then Trim(s[1..])
    else
      TrimEndPrefix(s);
      TrimEnd(s)
  }

  /** `s.substring(start, end)` for `start <= end`: both bounds are clamped to the length. */
  function Substring(s: string, start: nat, end: nat): (r: string)
    requires start <= end
    ensures end <= |s| ==> r == s[start..end]
    ensures |r| <= end - start
  {
    var a := if start <= |s| then start else |s|;
    var b := if end <= |s| then end else |s|;
    s[a..b]
  }

  /** `s.split(sep)` for a one-character separator: the pieces between separators, in order. */
  function Split(s: string, sep: char): (parts: seq<string>)
    ensures |parts| >= 1
    ensures forall i :: 0 <= i < |parts| ==> sep !in parts[i]
  {
    if s == [] then [[]]
    else
      var rest := Split(s[1..], sep);
      if s[0] == sep then [[]] + rest
      else [[s[0]] + rest[0]] + rest[1..]
  }

  /** `parts.join(sep)`. */
  function Join(parts: seq<string>, sep: char): string
    requires |parts| >= 1
  {
    if |parts| == 1 then parts[0] else parts[0] + [sep] + Join(parts[1..], sep)
  }

  /** Left-pads `s` with `fill` up to `width` characters (fixed-width fields are right-aligned). */
  function PadLeft(s: string, width: nat, fill: char): (r: string)
    requires |s| <= width
    ensures |r| == width && r[width - |s|..] == s
    ensures forall i :: 0 <= i < width - |s| ==> r[i] == fill
  {
    Repeat(fill, width - |s|) + s
  }

  /** `n` copies of `c`. */
  function Repeat(c: char, n: nat): (r: string)
    ensures |r| == n && forall i :: 0 <= i < n ==> r[i] == c
  {
    if n == 0 then [] else [c] + Repeat(c, n - 1)
  }

  // ---------------------------------------------------------------------------
  // Lemmas

  /** Splitting on a separator loses nothing: joining the pieces gives the input back. */
  lemma {:induction false} SplitJoin(s: string, sep: char)
    ensures Join(Split(s, sep), sep) == s
  {
    if s != [] {
      SplitJoin(s[1..], sep);
      var rest := Split(s[1..], sep);
      if s[0] != sep {
        if |rest| > 1 {
          assert Split(s, sep)[1..] == rest[1..];
          assert Join(Split(s, sep), sep) == [s[0]] + rest[0] + [sep] + Join(rest[1..], sep);
        }
      } else {
        assert Split(s, sep)[1..] == rest;
      }
    }
  }

  /** A string with no separator in it is split into itself alone. */
  lemma {:induction false} SplitNoSeparator(s: string, sep: char)
    requires sep !in s
    ensures Split(s, sep) == [s]
  {
    if s != [] {
      SplitNoSeparator(s[1..], sep);
      assert [s[0]] + s[1..] == s;
    }
  }

  /** Text joined at a separator splits into the pieces of each side. */
  lemma {:induction false} SplitConcat(a: string, b: string, sep: char)
    ensures Split(a + [sep] + b, sep) == Split(a, sep) + Split(b, sep)
  {
    var s := a + [sep] + b;
    if a == [] {
      assert s[1..] == b;
    } else {
      assert s[1..] == a[1..] + [sep] + b;
      SplitConcat(a[1..], b, sep);
    }
  }

  /** Concatenation is associative (stated once, so that callers need not prove it by extensionality). */
  lemma AppendAssoc<T>(a: seq<T>, b: seq<T>, c: seq<T>)
    ensures a + (b + c) == (a + b) + c
  {
  }

  /** `TrimEnd` keeps a prefix, so a non-empty result starts where the input does. */
  lemma {:induction false} TrimEndPrefix(s: string)
    ensures TrimEnd(s) == s[..|TrimEnd(s)|]
  {
    if |s| > 0 && IsSpace(s[|s| - 1]) {
      TrimEndPrefix(s[..|s| - 1]);
      assert s[..|s| - 1][..|TrimEnd(s)|] == s[..|TrimEnd(s)|];
    }
  }

  /** A string is blank exactly when trimming leaves nothing. */
  lemma {:induction false} TrimEmptyIffBlank(s: string)
    ensures Trim(s) == [] <==> AllSpace(s)
  {
    if |s| > 0 && IsSpace(s[0]) {
      TrimEmptyIffBlank(s[1..]);
      assert AllSpace(s[1..]) ==> AllSpace(s) by {
        if AllSpace(s[1..]) {
          forall i | 0 < i < |s| ensures IsSpace(s[i]) {
            assert s[i] == s[1..][i - 1];
          }
        }
      }
    } else {
      TrimEndBlank(s);
    }
  }

  /** `TrimEnd` leaves nothing exactly when the whole string is white space. */
  lemma {:induction false} TrimEndBlank(s: string)
    ensures TrimEnd(s) == [] <==> AllSpace(s)
  {
    if |s| > 0 && IsSpace(s[|s| - 1]) {
      var init := s[..|s| - 1];
      TrimEndBlank(init);
      if AllSpace(init) {
        forall i | 0 <= i < |s| ensures IsSpace(s[i]) {
          if i < |s| - 1 {
            assert s[i] == init[i];
          }
        }
      }
      if AllSpace(s) {
        forall i | 0 <= i < |init| ensures IsSpace(init[i]) {
          assert init[i] == s[i];
        }
      }
    }
  }

  /** White-space padding after a core that does not end in white space is dropped by `TrimEnd`. */
  lemma {:induction false} TrimEndPadded(core: string, post: string)
    requires AllSpace(post)
    requires core != [] ==> !IsSpace(core[|core| - 1])
    ensures TrimEnd(core + post) == core
  {
    if post != [] {
      var p' := post[..|post| - 1];
      assert (core + post)[..|core + post| - 1] == core + p';
      assert (core + post)[|core + post| - 1] == post[|post| - 1];
      TrimEndPadded(core, p');
    } else {
      assert core + post == core;
    }
  }

  /** Trimming white-space padding around a core that has no white space at its ends yields the core. */
  lemma {:induction false} TrimPadded(pre: string, core: string, post: string)
    requires AllSpace(pre) && AllSpace(post)
    requires core != [] ==> !IsSpace(core[0]) && !IsSpace(core[|core| - 1])
    ensures Trim(pre + core + post) == core
  {
    var s := pre + core + post;
    if pre != [] {
      assert s[0] == pre[0];
      assert s[1..] == pre[1..] + core + post;
      TrimPadded(pre[1..], core, post);
    } else if core != [] {
      assert s == core + post && s[0] == core[0];
      TrimEndPadded(core, post);
    } else {
      assert s == post;
      TrimEmptyIffBlank(post);
    }
  }
}
