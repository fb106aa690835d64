/**
 * The few JavaScript string built-ins the core relies on, over `string` (`seq<char>`):
 * `s.split(c)[0]`, `lastIndexOf`, `includes`, `trim`, and the matching decoders
 * used to state round trips about generated text.
 */
module JsString {

  /** `s.split(c)[0]`: the part of `s` before the first `c`, or all of `s` when there is none. */
  function Before(s: string, c: char): (r: string)
    ensures c !in r
    ensures r <= s
    ensures |r| < |s| <==> c in s
    ensures |r| < |s| ==> s[|r|] == c
  {
    if s == [] then []
    else if s[0] == c then []
    else [s[0]] + Before(s[1..], c)
  }

  /** What follows the first `c` in `s`; empty when `s` has no `c`. */
  function After(s: string, c: char): (r: string)
    ensures c in s ==> s == Before(s, c) + [c] + r
    ensures c !in s ==> r == []
    ensures s != [] ==> |r| < |s|
  {
    if c in s then
      var b := Before(s, c);
      assert s == s[..|b|] + [s[|b|]] + s[|b| + 1..];
      s[|b| + 1..]
    else []
  }

  /** Splitting `a + [c] + b` at its first `c` gives back `a` and `b` when `a` holds no `c`. */
  lemma {:induction false} SplitAtFirst(a: string, c: char, b: string)
    requires c !in a
    ensures Before(a + [c] + b, c) == a
    ensures After(a + [c] + b, c) == b
  {
    var s := a + [c] + b;
    if a == [] {
      assert s[0] == c;
    } else {
      assert s[0] == a[0];
      assert s[1..] == a[1..] + [c] + b;
      SplitAtFirst(a[1..], c, b);
      assert Before(s, c) == [a[0]] + a[1..];
    }
    assert |Before(s, c)| == |a|;
    assert s[|a| + 1..] == b;
  }

  /** `split(c)[0]` of a text whose part after `a` opens with `c`: the part before is `a`. */
  lemma SplitAtSeparator(a: string, c: char, sep: string, b: string)
    requires c !in a && sep != [] && sep[0] == c
    ensures Before(a + sep + b, c) == a
    ensures (a + sep + b)[|a|..] == sep + b
  {
    assert a + sep + b == a + [c] + (sep[1..] + b);
    SplitAtFirst(a, c, sep[1..] + b);
  }

  /** `s.endsWith(t)`. */
  predicate EndsWith(s: string, t: string)
  {
    |t| <= |s| && s[|s| - |t|..] == t
  }

  /** A suffix of a suffix of `a` is a suffix of `a`. */
  lemma EndsWithTrans(a: string, b: string, c: string)
    requires EndsWith(a, b) && EndsWith(b, c)
    ensures EndsWith(a, c)
  {
    assert a[|a| - |c|..] == a[|a| - |b|..][|b| - |c|..];
  }

  /** `s.lastIndexOf(c)`: the index of the last `c` in `s`, or -1. */
  function LastIndexOf(s: string, c: char): (r: int)
    ensures -1 <= r < |s|
    ensures r == -1 <==> c !in s
    ensures r >= 0 ==> s[r] == c && c !in s[r + 1..]
  {
    if s == [] then -1
    else if s[|s| - 1] == c then |s| - 1
    else
      var r := LastIndexOf(s[..|s| - 1], c);
      assert s == s[..|s| - 1] + [s[|s| - 1]];
      assert r >= 0 ==> s[r + 1..] == s[..|s| - 1][r + 1..] + [s[|s| - 1]];
      r
  }

  /** No `c` of `s` lies after `s.lastIndexOf(c)`. */
  lemma LastIndexOfIsLast(s: string, c: char)
    ensures forall i :: 0 <= i < |s| && s[i] == c ==> i <= LastIndexOf(s, c)
  {
    var last := LastIndexOf(s, c);
    forall i | 0 <= i < |s| && s[i] == c
      ensures i <= last
    {
    }
  }

  /** The last `c` of `a + [c] + b` is the one after `a` when `b` holds none. */
  lemma {:induction false} LastIndexOfAt(a: string, c: char, b: string)
    requires c !in b
    ensures LastIndexOf(a + [c] + b, c) == |a|
    decreases |b|
  {
    var s := a + [c] + b;
    if b != [] {
      var init := b[..|b| - 1];
      assert s[..|s| - 1] == a + [c] + init && s[|s| - 1] == b[|b| - 1];
      assert c !in init by { assert forall x :: x in init ==> x in b; }
      LastIndexOfAt(a, c, init);
    }
  }

  /** `part` occurs in `s` starting at index `i`. */
  predicate OccursAt(s: string, part: string, i: int)
  {
    0 <= i && i + |part| <= |s| && s[i..i + |part|] == part
  }

  /** An occurrence past the first character of `s` is one in `s[1..]`, one index earlier. */
  lemma OccursAtShift(s: string, part: string)
    requires s != []
    ensures forall i :: 1 <= i ==> (OccursAt(s, part, i) <==> OccursAt(s[1..], part, i - 1))
  {
    forall i | 1 <= i
      ensures OccursAt(s, part, i) <==> OccursAt(s[1..], part, i - 1)
    {
      if i + |part| <= |s| {
        assert s[1..][i - 1..i - 1 + |part|] == s[i..i + |part|];
      }
    }
  }

  /** `s.includes(part)`: `part` occurs in `s` at some index. */
  function Includes(s: string, part: string): (r: bool)
    ensures r <==> exists i :: OccursAt(s, part, i)
    decreases |s|
  {
    if |s| < |part| then false
    else if s[..|part|] == part then
      assert OccursAt(s, part, 0);
      true
    else
      var rest := Includes(s[1..], part);
      OccursAtShift(s, part);
      assert rest ==> exists i :: OccursAt(s, part, i) by {
        if rest {
          var j :| OccursAt(s[1..], part, j);
          assert OccursAt(s, part, j + 1);
        }
      }
      rest
  }

  /** A text includes every part written into it. */
  lemma {:induction false} IncludesPart(a: string, part: string, b: string)
    ensures Includes(a + part + b, part)
    decreases |a|
  {
    var s := a + part + b;
    if a == [] {
      assert s[..|part|] == part;
    } else {
      assert s[1..] == a[1..] + part + b;
      IncludesPart(a[1..], part, b);
    }
  }

  /** A text written after a prefix still includes what it included. */
  lemma {:induction false} IncludesAfter(a: string, s: string, part: string)
    requires Includes(s, part)
    ensures Includes(a + s, part)
    decreases |a|
  {
    if a == [] {
      assert a + s == s;
    } else {
      assert (a + s)[1..] == a[1..] + s;
      IncludesAfter(a[1..], s, part);
    }
  }

  /** The characters `String.prototype.trim` removes: ECMAScript WhiteSpace and LineTerminator. */
  predicate IsWhitespace(ch: char)
  {
    '\t' <= ch <= '\r' || ch == ' ' || ch == '\U{00A0}' || ch == '\U{1680}'
    || '\U{2000}' <= ch <= '\U{200A}' || ch == '\U{2028}' || ch == '\U{2029}' || ch == '\U{202F}'
    || ch == '\U{205F}' || ch == '\U{3000}' || ch == '\U{FEFF}'
  }

  /** `s.trimStart()`: what is left after the leading whitespace. */
  function TrimStart(s: string): (r: string)
    ensures |r| <= |s| && r == s[|s| - |r|..]
    ensures r != [] ==> !IsWhitespace(r[0])
    ensures forall k :: 0 <= k < |s| - |r| ==> IsWhitespace(s[k])
  {
    if s != [] && IsWhitespace(s[0]) then
      var r := TrimStart(s[1..]);
      assert forall k :: 1 <= k < |s| ==> s[k] == s[1..][k - 1];
      r
    else s
  }

  /** `s.trimEnd()`: what is left before the trailing whitespace. */
  function TrimEnd(s: string): (r: string)
    ensures r <= s
    ensures r != [] ==> !IsWhitespace(r[|r| - 1])
    ensures forall k :: |r| <= k < |s| ==> IsWhitespace(s[k])
  {
    if s != [] && IsWhitespace(s[|s| - 1]) then TrimEnd(s[..|s| - 1]) else s
  }

  /**
   * `s.trim()`: the infix of `s` that starts and ends with a non-whitespace
   * character, with only whitespace before and after it.
   */
  function Trim(s: string): (r: string)
    ensures |r| <= |s|
    ensures r != [] ==> !IsWhitespace(r[0]) && !IsWhitespace(r[|r| - 1])
    ensures (forall i :: 0 <= i < |s| ==> IsWhitespace(s[i])) ==> r == []
    ensures s != [] && !IsWhitespace(s[0]) && !IsWhitespace(s[|s| - 1]) ==> r == s
    ensures exists i :: PaddedAt(s, r, i)
  {
    TrimPadded(s);
    TrimEnd(TrimStart(s))
  }

  /** What `trim` keeps sits in `s` right after the leading whitespace `trimStart` drops. */
  lemma TrimPadded(s: string)
    ensures PaddedAt(s, TrimEnd(TrimStart(s)), |s| - |TrimStart(s)|)
  {
    var start := TrimStart(s);
    var i := |s| - |start|;
    var r := TrimEnd(start);
    PrefixOfSuffix(s, i, r);
    forall k | i + |r| <= k < |s|
      ensures IsWhitespace(s[k])
    {
      assert s[k] == start[k - i];
    }
  }

  /** A prefix of the suffix of `s` from `i` is the infix of `s` at `i`. */
  lemma PrefixOfSuffix(s: string, i: int, r: string)
    requires 0 <= i <= |s| && r <= s[i..]
    ensures OccursAt(s, r, i)
  {
    assert forall k :: 0 <= k < |r| ==> r[k] == s[i..][k];
  }

  /** `r` occurs in `s` at `i`, with only whitespace before and after it. */
  predicate PaddedAt(s: string, r: string, i: int)
  {
    OccursAt(s, r, i)
    && (forall k :: 0 <= k < i ==> IsWhitespace(s[k]))
    && (forall k :: i + |r| <= k < |s| ==> IsWhitespace(s[k]))
  }
}
