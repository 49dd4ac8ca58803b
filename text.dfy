/**
  The string operations the quote store uses to detect duplicates:
  Python's `str.strip()` and `str.lower()`, over the ASCII range.
  A quote's `normalized_text` is `Normalize(text)`, i.e. `text.strip().lower()`.
 */
module Text {
  import opened Wrappers

  /** Python's `str.isspace()` on the ASCII range: tab, line feed, vertical tab,
      form feed, carriage return, the four information separators and space. */
  predicate IsSpace(c: char) {
    9 <= c as int <= 13 || 28 <= c as int <= 31 || c == ' '
  }

  ghost predicate AllSpace(s: string) {
    forall i :: 0 <= i < |s| ==> IsSpace(s[i])
  }

  /** `x or ""` for an optional string. */
  function OrEmpty(s: Option<string>): (r: string)
    ensures s.Some? ==> r == s.value
    ensures s.None? ==> r == []
  {
    match s
    case Some(v) => v
    case None => []
  }

  /** `str.lower()` on one ASCII character. */
  function LowerChar(c: char): (d: char)
    ensures !('A' <= d <= 'Z')
    ensures IsSpace(d) <==> IsSpace(c)
    ensures 'a' <= c <= 'z' ==> d == c
  {
    if 'A' <= c <= 'Z' then (c as int + 32) as char else c
  }

  function Lower(s: string): (r: string)
    ensures |r| == |s|
    ensures forall i :: 0 <= i < |s| ==> r[i] == LowerChar(s[i])
  {
    seq(|s|, i requires 0 <= i < |s| => LowerChar(s[i]))
  }

  /** `str.lstrip()`. */
  function TrimLeft(s: string): string
    decreases |s|
  {
    if s != [] && IsSpace(s[0]) then TrimLeft(s[1..]) else s
  }

  /** `str.rstrip()`. */
  function TrimRight(s: string): string
    decreases |s|
  {
    if s != [] && IsSpace(s[|s| - 1]) then TrimRight(s[..|s| - 1]) else s
  }

  /** `lstrip` drops the leading whitespace and nothing else. */
  lemma {:induction false} TrimLeftSpec(s: string)
    ensures |TrimLeft(s)| <= |s| && TrimLeft(s) == s[|s| - |TrimLeft(s)|..]
    ensures forall i :: 0 <= i < |s| - |TrimLeft(s)| ==> IsSpace(s[i])
    ensures TrimLeft(s) == [] || !IsSpace(TrimLeft(s)[0])
    decreases |s|
  {
    if s != [] && IsSpace(s[0]) {
      TrimLeftSpec(s[1..]);
      forall i | 0 <= i < |s| - |TrimLeft(s)| ensures IsSpace(s[i]) {
        if i > 0 { assert s[i] == s[1..][i - 1]; }
      }
    }
  }

  /** `rstrip` drops the trailing whitespace and nothing else. */
  lemma {:induction false} TrimRightSpec(s: string)
    ensures |TrimRight(s)| <= |s| && TrimRight(s) == s[..|TrimRight(s)|]
    ensures forall i :: |TrimRight(s)| <= i < |s| ==> IsSpace(s[i])
    ensures TrimRight(s) == [] || !IsSpace(TrimRight(s)[|TrimRight(s)| - 1])
    decreases |s|
  {
    if s != [] && IsSpace(s[|s| - 1]) {
      TrimRightSpec(s[..|s| - 1]);
      forall i | |TrimRight(s)| <= i < |s| ensures IsSpace(s[i]) {
        if i < |s| - 1 { assert s[i] == s[..|s| - 1][i]; }
      }
    }
  }

  /** `str.strip()`. */
  function Strip(s: string): (r: string)
    ensures |r| <= |s|
  {
    TrimLeftSpec(s);
    TrimRightSpec(TrimLeft(s));
    TrimRight(TrimLeft(s))
  }

  /** A stripped text neither starts nor ends with whitespace. */
  lemma StripTrimmed(s: string)
    ensures Strip(s) == [] || (!IsSpace(Strip(s)[0]) && !IsSpace(Strip(s)[|Strip(s)| - 1]))
  {
    TrimLeftSpec(s);
    TrimRightSpec(TrimLeft(s));
  }

  /** The duplicate-detection key: `text.strip().lower()`. */
  function Normalize(s: string): (r: string)
    ensures |r| <= |s|
    ensures Lower(r) == r
  {
    Lower(Strip(s))
  }

  /** Cutting the whitespace off either end of any string that has the shape
      `pre + t + post` yields `t`, provided `t` neither starts nor ends with whitespace. */
  lemma StripCharacterization(pre: string, t: string, post: string)
    requires AllSpace(pre) && AllSpace(post)
    requires t == [] || (!IsSpace(t[0]) && !IsSpace(t[|t| - 1]))
    ensures Strip(pre + t + post) == t
  {
    var s := pre + t + post;
    var l := TrimLeft(s);
    TrimLeftSpec(s);
    var k := |s| - |l|;
    assert forall j :: 0 <= j < |pre| ==> s[j] == pre[j];
    assert l == [] || l[0] == s[k];
    if t == [] {
      assert forall j :: |pre| <= j < |s| ==> s[j] == post[j - |pre|];
      assert l == [];
    } else {
      // TrimLeft stops exactly at the first character of t.
      assert s[|pre|] == t[0] && !IsSpace(s[|pre|]);
      assert k == |pre|;
      assert l == t + post;
      var r := TrimRight(l);
      TrimRightSpec(l);
      assert l[|t| - 1] == t[|t| - 1] && !IsSpace(l[|t| - 1]);
      assert forall j :: |t| <= j < |l| ==> l[j] == post[j - |t|];
      assert r == [] || r[|r| - 1] == l[|r| - 1];
      assert |r| == |t|;
      assert r == l[..|t|] == t;
    }
  }

  lemma TrimLeftSplit(s: string) returns (pre: string)
    ensures AllSpace(pre) && s == pre + TrimLeft(s)
  {
    var l := TrimLeft(s);
    TrimLeftSpec(s);
    pre := s[..|s| - |l|];
    forall i | 0 <= i < |pre| ensures IsSpace(pre[i]) {
      assert pre[i] == s[i];
    }
    assert s == pre + l;
  }

  lemma TrimRightSplit(s: string) returns (post: string)
    ensures AllSpace(post) && s == TrimRight(s) + post
  {
    var r := TrimRight(s);
    TrimRightSpec(s);
    post := s[|r|..];
    forall i | 0 <= i < |post| ensures IsSpace(post[i]) {
      assert post[i] == s[|r| + i];
    }
    assert s == r + post;
  }

  /** Every string is its stripped core with whitespace on either side. */
  lemma StripDecomposition(s: string) returns (pre: string, post: string)
    ensures AllSpace(pre) && AllSpace(post)
    ensures s == pre + Strip(s) + post
  {
    pre := TrimLeftSplit(s);
    post := TrimRightSplit(TrimLeft(s));
  }

  lemma StripIdempotent(s: string)
    ensures Strip(Strip(s)) == Strip(s)
  {
    StripTrimmed(s);
    StripCharacterization([], Strip(s), []);
    assert [] + Strip(s) + [] == Strip(s);
  }

  /** Whitespace around a text does not change its stripped form. */
  lemma StripIgnoresSurroundingSpace(pre: string, s: string, post: string)
    requires AllSpace(pre) && AllSpace(post)
    ensures Strip(pre + s + post) == Strip(s)
  {
    var a, b := StripDecomposition(s);
    assert AllSpace(pre + a) && AllSpace(b + post) by {
      forall i | 0 <= i < |pre + a| ensures IsSpace((pre + a)[i]) {
        if i < |pre| { assert (pre + a)[i] == pre[i]; } else { assert (pre + a)[i] == a[i - |pre|]; }
      }
      forall i | 0 <= i < |b + post| ensures IsSpace((b + post)[i]) {
        if i < |b| { assert (b + post)[i] == b[i]; } else { assert (b + post)[i] == post[i - |b|]; }
      }
    }
    assert pre + s + post == (pre + a) + Strip(s) + (b + post);
    StripTrimmed(s);
    StripCharacterization(pre + a, Strip(s), b + post);
  }

  lemma LowerAppend(a: string, b: string)
    ensures Lower(a + b) == Lower(a) + Lower(b)
  {
    assert forall i :: 0 <= i < |a + b| ==> Lower(a + b)[i] == (Lower(a) + Lower(b))[i];
  }

  lemma LowerKeepsSpace(s: string)
    ensures AllSpace(s) ==> AllSpace(Lower(s))
  {
  }

  /** Lower-casing and stripping commute, because lower-casing never turns a
      non-space character into a space or the other way round. */
  lemma LowerStripCommute(s: string)
    ensures Lower(Strip(s)) == Strip(Lower(s))
  {
    var a, b := StripDecomposition(s);
    var t := Strip(s);
    LowerAppend(a, t);
    LowerAppend(a + t, b);
    LowerKeepsSpace(a);
    LowerKeepsSpace(b);
    StripTrimmed(s);
    StripCharacterization(Lower(a), Lower(t), Lower(b));
  }

  /** Two texts that differ only in the case of their letters get the same key. */
  lemma NormalizeIgnoresCase(s: string, t: string)
    requires Lower(s) == Lower(t)
    ensures Normalize(s) == Normalize(t)
  {
    LowerStripCommute(s);
    LowerStripCommute(t);
  }

  /** Two texts that differ only in surrounding whitespace get the same key. */
  lemma NormalizeIgnoresSurroundingSpace(pre: string, s: string, post: string)
    requires AllSpace(pre) && AllSpace(post)
    ensures Normalize(pre + s + post) == Normalize(s)
  {
    StripIgnoresSurroundingSpace(pre, s, post);
  }

  /** Stripping a text before normalizing it changes nothing. */
  lemma NormalizeOfStripped(s: string)
    ensures Normalize(Strip(s)) == Normalize(s)
  {
    StripIdempotent(s);
  }

  /** The key of a text is empty exactly when the text is all whitespace. */
  lemma NormalizeEmptyIffAllSpace(s: string)
    ensures Normalize(s) == [] <==> AllSpace(s)
  {
    var a, b := StripDecomposition(s);
    if Strip(s) == [] {
      assert s == a + b;
      forall i | 0 <= i < |s| ensures IsSpace(s[i]) {
        if i < |a| { assert s[i] == a[i]; } else { assert s[i] == b[i - |a|]; }
      }
    }
    if AllSpace(s) {
      StripCharacterization(s, [], []);
      assert s + [] + [] == s;
    }
  }
}
