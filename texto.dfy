/** Text normalisation behind the duplicate checks of customer registration:
    Python's `str.strip()` (no arguments) and `str.lower()`, on strings
    modelled as sequences of characters. */
module Texto {

  /** The characters Python's `str.isspace()` accepts; `str.strip()` removes
      exactly these from both ends. */
  predicate IsSpace(c: char) {
    || ('\t' <= c <= '\r')
    || ('\U{1C}' <= c <= '\U{1F}')
    || c == ' '
    || c == '\U{85}'
    || c == '\U{A0}'
    || c == '\U{1680}'
    || ('\U{2000}' <= c <= '\U{200A}')
    || c == '\U{2028}'
    || c == '\U{2029}'
    || c == '\U{202F}'
    || c == '\U{205F}'
    || c == '\U{3000}'
  }

  /** Drops the leading whitespace: the result is the suffix of `s` that
      starts at its first non-space character. */
  function StripLeft(s: string): (r: string)
    ensures |r| <= |s| && r == s[|s| - |r|..]
    ensures forall i :: 0 <= i < |s| - |r| ==> IsSpace(s[i])
    ensures r == [] || !IsSpace(r[0])
  {
    if s != [] && IsSpace(s[0]) then StripLeft(s[1..]) else s
  }

  /** Drops the trailing whitespace: the result is the prefix of `s` that
      ends at its last non-space character. */
  function StripRight(s: string): (r: string)
    ensures |r| <= |s| && r == s[..|r|]
    ensures forall i :: |r| <= i < |s| ==> IsSpace(s[i])
    ensures r == [] || !IsSpace(r[|r| - 1])
  {
    if s != [] && IsSpace(s[|s| - 1]) then StripRight(s[..|s| - 1]) else s
  }

  /** `r` is `s[k..k + |r|]` and everything of `s` around it is whitespace. */
  ghost predicate Recorte(s: string, k: int, r: string) {
    && 0 <= k <= k + |r| <= |s|
    && r == s[k..k + |r|]
    && (forall i :: 0 <= i < k ==> IsSpace(s[i]))
    && (forall i :: k + |r| <= i < |s| ==> IsSpace(s[i]))
  }

  /** `s.strip()`: the slice of `s` left once the whitespace at both ends is
      removed; it neither starts nor ends with whitespace. */
  function Strip(s: string): (r: string)
    ensures exists k :: Recorte(s, k, r)
    ensures r == [] || (!IsSpace(r[0]) && !IsSpace(r[|r| - 1]))
  {
    var l := StripLeft(s);
    RecorteDeStrip(s, l, StripRight(l));
    StripRight(l)
  }

  /** Trimming a whitespace prefix from `s`, then a whitespace suffix from
      what is left, cuts out a slice of `s`. */
  lemma {:induction false} RecorteDeStrip(s: string, l: string, r: string)
    requires |l| <= |s| && l == s[|s| - |l|..]
    requires forall i :: 0 <= i < |s| - |l| ==> IsSpace(s[i])
    requires |r| <= |l| && r == l[..|r|]
    requires forall i :: |r| <= i < |l| ==> IsSpace(l[i])
    ensures Recorte(s, |s| - |l|, r)
  {
    var k := |s| - |l|;
    assert r == s[k..k + |r|] by {
      calc {
        r;
        l[..|r|];
        s[k..][..|r|];
        s[k..k + |r|];
      }
    }
    assert forall i :: k + |r| <= i < |s| ==> IsSpace(s[i]) by {
      forall i | k + |r| <= i < |s| ensures IsSpace(s[i]) {
        assert s[i] == l[i - k] && |r| <= i - k < |l|;
      }
    }
  }

  /** The capitals `lower()` maps here: ASCII `A`-`Z` and the Latin-1
      capitals U+00C0-U+00DE (except the multiplication sign U+00D7). */
  predicate Mayuscula(c: char) {
    'A' <= c <= 'Z' || ('\U{C0}' <= c <= '\U{DE}' && c != '\U{D7}')
  }

  /** Lower-case mapping of one character: a capital moves 32 code points
      up to its small letter, every other character stays as it is, and no
      capital is left. */
  function LowerChar(c: char): (r: char)
    ensures r == c <==> !Mayuscula(c)
    ensures Mayuscula(c) ==> r as int == c as int + 32
    ensures !Mayuscula(r)
  {
    if Mayuscula(c) then
      (c as int + 32) as char
    else
      c
  }

  /** `s.lower()`: each character lower-cased in place. */
  function Lower(s: string): (r: string)
    ensures |r| == |s|
    ensures forall i :: 0 <= i < |s| ==> r[i] == LowerChar(s[i])
  {
    seq(|s|, i requires 0 <= i < |s| => LowerChar(s[i]))
  }

  /** The key registration compares names by: `s.strip().lower()`. It is
      no longer than the name and has no capital left. */
  function Clave(s: string): (r: string)
    ensures |r| <= |s|
    ensures forall i :: 0 <= i < |r| ==> !Mayuscula(r[i])
  {
    Lower(Strip(s))
  }

  /** Leading and trailing whitespace never changes what `strip()` gives. */
  lemma {:induction false} StripLeftPadding(pre: string, s: string)
    requires forall i :: 0 <= i < |pre| ==> IsSpace(pre[i])
    ensures StripLeft(pre + s) == StripLeft(s)
  {
    if pre == [] {
      assert pre + s == s;
    } else {
      assert (pre + s)[1..] == pre[1..] + s;
      StripLeftPadding(pre[1..], s);
    }
  }

  lemma {:induction false} StripRightPadding(s: string, post: string)
    requires forall i :: 0 <= i < |post| ==> IsSpace(post[i])
    ensures StripRight(s + post) == StripRight(s)
  {
    if post == [] {
      assert s + post == s;
    } else {
      var n := |post| - 1;
      assert (s + post)[..|s + post| - 1] == s + post[..n];
      StripRightPadding(s, post[..n]);
    }
  }

  /** Whitespace appended after `s` is kept by `StripLeft`, unless `s` is
      all whitespace, in which case everything goes. */
  lemma {:induction false} StripLeftAppend(s: string, post: string)
    requires forall i :: 0 <= i < |post| ==> IsSpace(post[i])
    ensures StripLeft(s) != [] ==> StripLeft(s + post) == StripLeft(s) + post
    ensures StripLeft(s) == [] ==> StripLeft(s + post) == []
  {
    if s == [] {
      assert s + post == post + s;
      StripLeftPadding(post, s);
    } else if IsSpace(s[0]) {
      assert (s + post)[1..] == s[1..] + post;
      StripLeftAppend(s[1..], post);
    }
  }

  /** Registration treats `"  Ana "` and `"Ana"` alike: surrounding
      whitespace does not change a name's key. */
  lemma StripPadding(pre: string, s: string, post: string)
    requires forall i :: 0 <= i < |pre| ==> IsSpace(pre[i])
    requires forall i :: 0 <= i < |post| ==> IsSpace(post[i])
    ensures Strip(pre + s + post) == Strip(s)
    ensures Clave(pre + s + post) == Clave(s)
  {
    assert pre + s + post == pre + (s + post);
    StripLeftPadding(pre, s + post);
    StripLeftAppend(s, post);
    StripRightPadding(StripLeft(s), post);
  }

  /** Lower-casing neither creates nor removes whitespace and is idempotent. */
  lemma LowerCharFacts(c: char)
    ensures IsSpace(LowerChar(c)) == IsSpace(c)
    ensures LowerChar(LowerChar(c)) == LowerChar(c)
  {
  }

  /** Lower-casing keeps a string free of whitespace at its ends, so
      `strip()` leaves it as it is. */
  lemma LowerSinBordes(t: string)
    requires t == [] || (!IsSpace(t[0]) && !IsSpace(t[|t| - 1]))
    ensures Strip(Lower(t)) == Lower(t)
  {
    var u := Lower(t);
    if u != [] {
      assert u[0] == LowerChar(t[0]) && u[|u| - 1] == LowerChar(t[|t| - 1]);
      LowerCharFacts(t[0]);
      LowerCharFacts(t[|t| - 1]);
      assert StripLeft(u) == u;
      assert StripRight(u) == u;
    }
  }

  /** Lower-casing twice is lower-casing once. */
  lemma LowerIdempotente(t: string)
    ensures Lower(Lower(t)) == Lower(t)
  {
    var u := Lower(t);
    forall i | 0 <= i < |u| ensures Lower(u)[i] == u[i] {
      LowerCharFacts(t[i]);
    }
  }

  /** Normalising a normalised name changes nothing. */
  lemma ClaveIdempotente(s: string)
    ensures Clave(Clave(s)) == Clave(s)
  {
    LowerSinBordes(Strip(s));
    LowerIdempotente(Strip(s));
  }

  /** Lower-casing and dropping leading whitespace can be done in either
      order. */
  lemma {:induction false} StripLeftLower(s: string)
    ensures StripLeft(Lower(s)) == Lower(StripLeft(s))
  {
    if s != [] {
      LowerCharFacts(s[0]);
      assert Lower(s)[1..] == Lower(s[1..]);
      if IsSpace(s[0]) {
        StripLeftLower(s[1..]);
      }
    }
  }

  /** Lower-casing and dropping trailing whitespace can be done in either
      order. */
  lemma {:induction false} StripRightLower(s: string)
    ensures StripRight(Lower(s)) == Lower(StripRight(s))
  {
    if s != [] {
      var n := |s| - 1;
      LowerCharFacts(s[n]);
      assert Lower(s)[..n] == Lower(s[..n]);
      if IsSpace(s[n]) {
        StripRightLower(s[..n]);
      }
    }
  }

  /** The key is also `s.lower().strip()`: stripping and lower-casing
      commute. */
  lemma ClaveConmuta(s: string)
    ensures Clave(s) == Strip(Lower(s))
  {
    StripLeftLower(s);
    StripRightLower(StripLeft(s));
  }

  /** Names that differ only in letter case have the same key, so the
      registration check treats "Ana", "ANA" and "aNa" alike. */
  lemma ClaveIgnoraMayusculas(s: string, t: string)
    requires Lower(s) == Lower(t)
    ensures Clave(s) == Clave(t)
  {
    ClaveConmuta(s);
    ClaveConmuta(t);
  }
}
