/**
 * The three Python string operations the application applies itself:
 * `str.endswith`, `str.strip()` with no argument, and `str.split(sep)`
 * with an explicit separator.
 */
module Text {

  /** Python's `str.isspace` for one character: the Unicode whitespace set. */
  predicate IsSpace(c: char)
  {
    ('\U{0009}' <= c <= '\U{000D}') || ('\U{001C}' <= c <= '\U{0020}')
    || c == '\U{0085}' || c == '\U{00A0}' || c == '\U{1680}'
    || ('\U{2000}' <= c <= '\U{200A}')
    || c == '\U{2028}' || c == '\U{2029}' || c == '\U{202F}' || c == '\U{205F}' || c == '\U{3000}'
  }

  predicate AllSpace(s: string)
  {
    forall k :: 0 <= k < |s| ==> IsSpace(s[k])
  }

  /** `s.endswith(suffix)`: case-sensitive comparison of the last characters. */
  predicate EndsWith(s: string, suffix: string)
  {
    |suffix| <= |s| && s[|s| - |suffix|..] == suffix
  }

  /** Neither starts nor ends with whitespace. */
  predicate Trimmed(s: string)
  {
    s != [] ==> !IsSpace(s[0]) && !IsSpace(s[|s| - 1])
  }

  /** Number of whitespace characters at the front of `s`. */
  function LeadingSpaces(s: string): (n: nat)
    ensures n <= |s|
    ensures AllSpace(s[..n])
    ensures n < |s| ==> !IsSpace(s[n])
  {
    if s != [] && IsSpace(s[0]) then
      var n := 1 + LeadingSpaces(s[1..]);
      assert s[..n] == [s[0]] + s[1..][..n - 1];
      n
    else 0
  }

  /** Number of whitespace characters at the back of `s`. */
  function TrailingSpaces(s: string): (n: nat)
    ensures n <= |s|
    ensures AllSpace(s[|s| - n..])
    ensures n < |s| ==> !IsSpace(s[|s| - n - 1])
  {
    if s != [] && IsSpace(s[|s| - 1]) then
      var n := 1 + TrailingSpaces(s[..|s| - 1]);
      assert s[|s| - n..] == s[..|s| - 1][|s| - n..] + [s[|s| - 1]];
      n
    else 0
  }

  /**
   * `s.strip()`: the longest slice of `s` that neither starts nor ends with
   * whitespace, once all surrounding whitespace is removed.
   */
  function Strip(s: string): (r: string)
    ensures LeadingSpaces(s) + |r| <= |s| && s[LeadingSpaces(s)..LeadingSpaces(s) + |r|] == r
    ensures AllSpace(s[..LeadingSpaces(s)]) && AllSpace(s[LeadingSpaces(s) + |r|..])
    ensures Trimmed(r)
  {
    var i := LeadingSpaces(s);
    var t := s[i..];
    var j := |t| - TrailingSpaces(t);
    var r := t[..j];
    assert s[i..i + j] == r;
    assert s[i + j..] == t[j..];
    assert r != [] ==> r[0] == t[0] && r[j - 1] == t[j - 1];
    r
  }

  /** Stripping gives nothing exactly when the text is all whitespace. */
  lemma StripEmptyIff(s: string)
    ensures Strip(s) == [] <==> AllSpace(s)
  {
    var i, r := LeadingSpaces(s), Strip(s);
    if r == [] {
      assert s[..i] == s;
    } else {
      assert s[i] == r[0];
    }
  }

  /** Text that neither starts nor ends with whitespace is its own strip. */
  lemma StripTrimmed(s: string)
    requires Trimmed(s)
    ensures Strip(s) == s
  {
    var i, r := LeadingSpaces(s), Strip(s);
    if s != [] {
      assert i == 0;
    }
  }

  /** `strip` is idempotent. */
  lemma StripIdempotent(s: string)
    ensures Strip(Strip(s)) == Strip(s)
  {
    StripTrimmed(Strip(s));
  }

  /**
   * `s.split(sep)`: the pieces between separators, left to right; always
   * at least one piece, and an empty piece wherever two separators touch.
   */
  function Split(s: string, sep: char): (pieces: seq<string>)
    ensures |pieces| >= 1
    ensures forall k :: 0 <= k < |pieces| ==> sep !in pieces[k]
    ensures Join(pieces, sep) == s
  {
    if s == [] then [[]]
    else
      var rest := Split(s[1..], sep);
      if s[0] == sep then
        assert [[]] + rest == [[]] + rest[..];
        [[]] + rest
      else
        var pieces := [[s[0]] + rest[0]] + rest[1..];
        JoinHead(rest, sep, s[0]);
        pieces
  }

  /** `sep.join(pieces)`. */
  function Join(pieces: seq<string>, sep: char): string
    requires |pieces| >= 1
  {
    if |pieces| == 1 then pieces[0] else pieces[0] + [sep] + Join(pieces[1..], sep)
  }

  lemma JoinHead(pieces: seq<string>, sep: char, c: char)
    requires |pieces| >= 1
    ensures Join([[c] + pieces[0]] + pieces[1..], sep) == [c] + Join(pieces, sep)
  {
    var p := [[c] + pieces[0]] + pieces[1..];
    assert p[1..] == pieces[1..];
  }

  /** Splitting a join of separator-free pieces gives the pieces back. */
  lemma {:induction false} SplitJoin(pieces: seq<string>, sep: char)
    requires |pieces| >= 1
    requires forall k :: 0 <= k < |pieces| ==> sep !in pieces[k]
    ensures Split(Join(pieces, sep), sep) == pieces
  {
    if |pieces| == 1 {
      SplitPlain(pieces[0], sep);
    } else {
      var tail := Join(pieces[1..], sep);
      SplitJoin(pieces[1..], sep);
      SplitPrefix(pieces[0], [sep] + tail, sep);
      assert ([sep] + tail)[1..] == tail;
      assert Join(pieces, sep) == pieces[0] + ([sep] + tail);
      assert pieces == [pieces[0]] + pieces[1..];
    }
  }

  /** A string without the separator is one piece. */
  lemma {:induction false} SplitPlain(s: string, sep: char)
    requires sep !in s
    ensures Split(s, sep) == [s]
  {
    if s != [] {
      SplitPlain(s[1..], sep);
      assert [s[0]] + s[1..] == s;
    }
  }

  /** A separator-free prefix glues onto the first piece of what follows it. */
  lemma {:induction false} SplitPrefix(p: string, rest: string, sep: char)
    requires sep !in p
    requires rest != [] && rest[0] == sep
    ensures Split(p + rest, sep) == [p] + Split(rest[1..], sep)
  {
    if p == [] {
      assert p + rest == rest;
    } else {
      var s := p + rest;
      assert s[0] == p[0] && s[1..] == p[1..] + rest;
      SplitPrefix(p[1..], rest, sep);
      var tail := Split(s[1..], sep);
      assert tail == [p[1..]] + Split(rest[1..], sep);
      assert Split(s, sep) == [[p[0]] + tail[0]] + tail[1..];
      assert [p[0]] + p[1..] == p;
      assert tail[1..] == Split(rest[1..], sep);
    }
  }
}
