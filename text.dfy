/**
 * String operations the schemas and the search rely on: the `trim: true` setter
 * (JavaScript's `String.prototype.trim`) and an unanchored case-insensitive match,
 * which is what `{ $regex: q, $options: "i" }` does for a query `q` that holds no
 * regular-expression metacharacters.
 */
module Text {

  /** The characters `trim` removes: JavaScript white space and line terminators. */
  predicate IsSpace(c: char)
  {
    || c == ' ' || c == '\t' || c == '\n' || c == '\r'
    || c == '\U{000B}' || c == '\U{000C}' || c == '\U{00A0}' || c == '\U{FEFF}'
    || c == '\U{1680}' || ('\U{2000}' <= c <= '\U{200A}')
    || c == '\U{2028}' || c == '\U{2029}' || c == '\U{202F}' || c == '\U{205F}' || c == '\U{3000}'
  }

  predicate AllSpace(s: string)
  {
    forall k :: 0 <= k < |s| ==> IsSpace(s[k])
  }

  /** Neither begins nor ends with a character that `trim` removes. */
  predicate Trimmed(s: string)
  {
    s == [] || (!IsSpace(s[0]) && !IsSpace(s[|s| - 1]))
  }

  function TrimStart(s: string): string
    decreases |s|
  {
    if s != [] && IsSpace(s[0]) then TrimStart(s[1..]) else s
  }

  function TrimEnd(s: string): string
    decreases |s|
  {
    if s != [] && IsSpace(s[|s| - 1]) then TrimEnd(s[..|s| - 1]) else s
  }

  /** `s.trim()` */
  function Trim(s: string): string
  {
    TrimEnd(TrimStart(s))
  }

  lemma {:induction false} TrimStartIsSuffix(s: string)
    ensures |TrimStart(s)| <= |s|
    ensures TrimStart(s) == s[|s| - |TrimStart(s)|..]
    ensures AllSpace(s[..|s| - |TrimStart(s)|])
    ensures TrimStart(s) == [] || !IsSpace(TrimStart(s)[0])
    decreases |s|
  {
    if s != [] && IsSpace(s[0]) {
      TrimStartIsSuffix(s[1..]);
      var t := TrimStart(s[1..]);
      assert s[1..][..|s| - 1 - |t|] == s[1..|s| - |t|];
      assert forall k :: 1 <= k < |s| - |t| ==> s[k] == s[1..][k - 1];
    }
  }

  lemma {:induction false} TrimEndIsPrefix(s: string)
    ensures |TrimEnd(s)| <= |s|
    ensures TrimEnd(s) == s[..|TrimEnd(s)|]
    ensures AllSpace(s[|TrimEnd(s)|..])
    ensures TrimEnd(s) == [] || !IsSpace(TrimEnd(s)[|TrimEnd(s)| - 1])
    decreases |s|
  {
    if s != [] && IsSpace(s[|s| - 1]) {
      var p := s[..|s| - 1];
      TrimEndIsPrefix(p);
      var t := TrimEnd(p);
      assert p[..|t|] == s[..|t|];
      assert forall k :: |t| <= k < |s| - 1 ==> s[k] == p[k];
    }
  }

  /**
   * `trim` removes exactly the surrounding white space: its result is a slice of the
   * input, everything cut away is white space, and what is left neither begins nor
   * ends with white space.
   */
  lemma TrimSlice(s: string)
    ensures Trimmed(Trim(s))
    ensures exists i, j :: 0 <= i <= j <= |s| && Trim(s) == s[i..j] && AllSpace(s[..i]) && AllSpace(s[j..])
  {
    TrimStartIsSuffix(s);
    var u := TrimStart(s);
    TrimEndIsPrefix(u);
    var t := TrimEnd(u);
    var i := |s| - |u|;
    var j := i + |t|;
    assert t == s[i..j];
    assert s[j..] == u[|t|..];
    if t != [] {
      assert t[0] == u[0];
    }
  }

  lemma TrimOfTrimmed(s: string)
    requires Trimmed(s)
    ensures Trim(s) == s
  {
  }

  /** Trimming twice is trimming once, so a stored trimmed value is stable under the setter. */
  lemma TrimIdempotent(s: string)
    ensures Trim(Trim(s)) == Trim(s)
  {
    TrimSlice(s);
    TrimOfTrimmed(Trim(s));
  }

  lemma {:induction false} TrimStartOfSpaces(w: string, s: string)
    requires AllSpace(w)
    ensures TrimStart(w + s) == TrimStart(s)
    decreases |w|
  {
    if w != [] {
      var ws := w + s;
      var rest := w[1..];
      assert ws[0] == w[0] && IsSpace(w[0]);
      assert ws[1..] == rest + s;
      assert AllSpace(rest) by {
        forall k | 0 <= k < |rest| ensures IsSpace(rest[k]) { assert rest[k] == w[k + 1]; }
      }
      TrimStartOfSpaces(rest, s);
      assert TrimStart(ws) == TrimStart(ws[1..]);
    } else {
      assert w + s == s;
    }
  }

  lemma {:induction false} TrimEndOfSpaces(s: string, w: string)
    requires AllSpace(w)
    ensures TrimEnd(s + w) == TrimEnd(s)
    decreases |w|
  {
    if w != [] {
      var sw := s + w;
      var rest := w[..|w| - 1];
      assert sw[|sw| - 1] == w[|w| - 1] && IsSpace(w[|w| - 1]);
      assert sw[..|sw| - 1] == s + rest;
      assert AllSpace(rest) by {
        forall k | 0 <= k < |rest| ensures IsSpace(rest[k]) { assert rest[k] == w[k]; }
      }
      TrimEndOfSpaces(s, rest);
      assert TrimEnd(sw) == TrimEnd(sw[..|sw| - 1]);
    } else {
      assert s + w == s;
    }
  }

  lemma {:induction false} TrimStartAppend(s: string, u: string)
    ensures TrimStart(s + u) == if TrimStart(s) == [] then TrimStart(u) else TrimStart(s) + u
    decreases |s|
  {
    if s == [] {
      assert s + u == u;
    } else if IsSpace(s[0]) {
      assert (s + u)[1..] == s[1..] + u;
      TrimStartAppend(s[1..], u);
    }
  }

  /**
   * Two strings that differ only in surrounding white space trim to the same value,
   * so they collide on a unique trimmed field.
   */
  lemma TrimIgnoresPadding(w1: string, s: string, w2: string)
    requires AllSpace(w1) && AllSpace(w2)
    ensures Trim(w1 + s + w2) == Trim(s)
  {
    assert w1 + s + w2 == w1 + (s + w2);
    TrimStartOfSpaces(w1, s + w2);
    TrimStartAppend(s, w2);
    if TrimStart(s) == [] {
      TrimStartOfSpaces(w2, []);
      assert w2 + [] == w2;
    } else {
      TrimEndOfSpaces(TrimStart(s), w2);
    }
  }

  /** Case folding of the `i` flag, on the Latin letters. */
  function LowerChar(c: char): char
  {
    if 'A' <= c <= 'Z' then ((c as int) + 32) as char else c
  }

  function Lower(s: string): (r: string)
    ensures |r| == |s|
    ensures forall k :: 0 <= k < |s| ==> r[k] == LowerChar(s[k])
  {
    seq(|s|, k requires 0 <= k < |s| => LowerChar(s[k]))
  }

  /** Lower-casing a piece of a string is the same piece of the lower-cased string. */
  lemma LowerSlice(s: string, i: nat, j: nat)
    requires i <= j <= |s|
    ensures Lower(s)[i..j] == Lower(s[i..j])
  {
  }

  /** Lower-casing a lower-cased string changes nothing. */
  lemma LowerIdempotent(s: string)
    ensures Lower(Lower(s)) == Lower(s)
  {
  }

  /** Whether `needle` occurs in `hay` at some offset, searched left to right. */
  predicate Occurs(needle: string, hay: string)
    decreases |hay|
  {
    if |needle| > |hay| then false
    else if hay[..|needle|] == needle then true
    else |hay| > 0 && Occurs(needle, hay[1..])
  }

  /** `needle` stands in `hay` at offset `i`. */
  predicate OccursAt(needle: string, hay: string, i: int)
  {
    0 <= i && i + |needle| <= |hay| && hay[i..i + |needle|] == needle
  }

  /** The left-to-right search agrees with the plain definition of a substring. */
  lemma {:induction false} OccursIff(needle: string, hay: string)
    ensures Occurs(needle, hay) <==> exists i :: OccursAt(needle, hay, i)
    decreases |hay|
  {
    var n := |needle|;
    if n <= |hay| && hay[..n] != needle && |hay| > 0 {
      OccursIff(needle, hay[1..]);
      if exists i :: OccursAt(needle, hay, i) {
        var i :| OccursAt(needle, hay, i);
        assert i > 0;
        assert hay[1..][i - 1..i - 1 + n] == needle;
        assert OccursAt(needle, hay[1..], i - 1);
      }
      if Occurs(needle, hay[1..]) {
        var i :| OccursAt(needle, hay[1..], i);
        assert hay[i + 1..i + 1 + n] == needle;
        assert OccursAt(needle, hay, i + 1);
      }
    } else if n <= |hay| && hay[..n] == needle {
      assert OccursAt(needle, hay, 0);
    } else if n > |hay| {
      assert forall i :: !OccursAt(needle, hay, i);
    }
  }

  /** `hay` matches `/needle/i`, for a `needle` without metacharacters. */
  predicate ContainsIgnoringCase(hay: string, needle: string)
  {
    Occurs(Lower(needle), Lower(hay))
  }
}
