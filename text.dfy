/** String operations of JavaScript that the core uses: `startsWith`, `includes`, `trim`. */
module Text {

  /** `s.startsWith(p)`. */
  predicate StartsWith(s: string, p: string)
  {
    |p| <= |s| && s[..|p|] == p
  }

  /** `needle` occurs in `hay` starting at index `i`. */
  predicate OccursAt(hay: string, needle: string, i: int)
  {
    0 <= i <= |hay| - |needle| && hay[i..i + |needle|] == needle
  }

  /** `hay.includes(needle)`, searching from the left. */
  function Includes(hay: string, needle: string): (r: bool)
    decreases |hay|
  {
    if |needle| > |hay| then false
    else if hay[..|needle|] == needle then true
    else Includes(hay[1..], needle)
  }

  /** `includes` holds exactly when the needle occurs at some position. */
  lemma {:induction false} IncludesIff(hay: string, needle: string)
    ensures Includes(hay, needle) <==> exists i :: OccursAt(hay, needle, i)
    decreases |hay|
  {
    if |needle| > |hay| {
    } else if hay[..|needle|] == needle {
      assert OccursAt(hay, needle, 0);
    } else {
      IncludesIff(hay[1..], needle);
      if exists i :: OccursAt(hay, needle, i) {
        var i :| OccursAt(hay, needle, i);
        assert i != 0;
        SliceOfTail(hay, i, |needle|);
        assert OccursAt(hay[1..], needle, i - 1);
      }
      if Includes(hay[1..], needle) {
        var i :| OccursAt(hay[1..], needle, i);
        assert hay[i + 1..i + 1 + |needle|] == hay[1..][i..i + |needle|];
        assert OccursAt(hay, needle, i + 1);
      }
    }
  }

  lemma SliceOfTail(hay: string, i: int, n: int)
    requires 1 <= i && 0 <= n && i + n <= |hay|
    ensures hay[i..i + n] == hay[1..][i - 1..i - 1 + n]
  {
    var a, b := hay[i..i + n], hay[1..][i - 1..i - 1 + n];
    forall k | 0 <= k < n ensures a[k] == b[k] {
      assert hay[1..][i - 1 + k] == hay[i + k];
    }
  }

  lemma Associative(a: string, b: string, c: string)
    ensures a + (b + c) == a + b + c
  {
  }

  /** Every string includes the empty string. */
  lemma IncludesEmpty(hay: string)
    ensures Includes(hay, "")
  {
  }

  /** The characters that ECMAScript's `trim` removes: WhiteSpace and LineTerminator. */
  predicate IsSpace(c: char)
  {
    ('\U{9}' <= c <= '\U{D}') || c == ' ' || c == '\U{A0}' || c == '\U{1680}' ||
    ('\U{2000}' <= c <= '\U{200A}') || c == '\U{2028}' || c == '\U{2029}' ||
    c == '\U{202F}' || c == '\U{205F}' || c == '\U{3000}' || c == '\U{FEFF}'
  }

  predicate AllSpace(s: string)
  {
    forall i :: 0 <= i < |s| ==> IsSpace(s[i])
  }

  /** `s.trimStart()`. */
  function TrimStart(s: string): (r: string)
    ensures |r| <= |s|
  {
    if s != [] && IsSpace(s[0]) then TrimStart(s[1..]) else s
  }

  /** `s.trimEnd()`. */
  function TrimEnd(s: string): (r: string)
    ensures |r| <= |s|
  {
    if s != [] && IsSpace(s[|s| - 1]) then TrimEnd(s[..|s| - 1]) else s
  }

  /** `s.trim()`. */
  function Trim(s: string): string
  {
    TrimEnd(TrimStart(s))
  }

  /** A slice whose every character is white space is all white space. */
  lemma AllSpaceSlice(s: string, lo: nat, hi: nat)
    requires lo <= hi <= |s|
    requires forall k :: lo <= k < hi ==> IsSpace(s[k])
    ensures AllSpace(s[lo..hi])
  {
    forall k | 0 <= k < hi - lo ensures IsSpace(s[lo..hi][k]) {
      assert s[lo..hi][k] == s[lo + k];
    }
  }

  /** `trimStart` drops a run of leading white space and stops at the first other character. */
  lemma {:induction false} TrimStartSpec(s: string)
    ensures var n := |s| - |TrimStart(s)|;
      TrimStart(s) == s[n..] && AllSpace(s[..n]) && (TrimStart(s) != [] ==> !IsSpace(TrimStart(s)[0]))
    decreases |s|
  {
    if s != [] && IsSpace(s[0]) {
      var u := s[1..];
      TrimStartSpec(u);
      var m := |u| - |TrimStart(u)|;
      assert TrimStart(s) == TrimStart(u);
      assert u[m..] == s[m + 1..];
      forall k | 0 <= k < m + 1 ensures IsSpace(s[k]) {
        if k > 0 {
          assert s[k] == u[..m][k - 1];
        }
      }
      AllSpaceSlice(s, 0, m + 1);
      assert s[..m + 1] == s[0..m + 1];
    } else {
      assert s[..0] == [];
    }
  }

  /** `trimEnd` drops a run of trailing white space and stops at the last other character. */
  lemma {:induction false} TrimEndSpec(s: string)
    ensures var r := TrimEnd(s);
      r == s[..|r|] && AllSpace(s[|r|..]) && (r != [] ==> !IsSpace(r[|r| - 1]))
    decreases |s|
  {
    if s != [] && IsSpace(s[|s| - 1]) {
      var u := s[..|s| - 1];
      TrimEndSpec(u);
      var r := TrimEnd(u);
      assert TrimEnd(s) == r;
      assert u[..|r|] == s[..|r|];
      forall k | |r| <= k < |s| ensures IsSpace(s[k]) {
        if k < |s| - 1 {
          assert s[k] == u[|r|..][k - |r|];
        }
      }
      AllSpaceSlice(s, |r|, |s|);
      assert s[|r|..] == s[|r|..|s|];
    } else {
      assert s[|s|..] == [];
    }
  }

  /** `trim` keeps the contiguous middle of `s` once leading and trailing white
      space is cut, and neither end of what it keeps is white space. */
  lemma TrimSpec(s: string)
    ensures var r, i := Trim(s), |s| - |TrimStart(s)|;
      i + |r| <= |s| && r == s[i..i + |r|] && AllSpace(s[..i]) && AllSpace(s[i + |r|..]) &&
      (r != [] ==> !IsSpace(r[0]) && !IsSpace(r[|r| - 1]))
  {
    var t := TrimStart(s);
    var r := TrimEnd(t);
    var i := |s| - |t|;
    assert Trim(s) == r;
    assert i + |r| <= |s| && r == s[i..i + |r|] && s[i + |r|..] == t[|r|..] by {
      TrimStartSpec(s);
      TrimEndSpec(t);
      MiddleSlice(s, t, r);
    }
    assert AllSpace(s[..i]) by {
      TrimStartSpec(s);
    }
    assert AllSpace(s[i + |r|..]) by {
      TrimEndSpec(t);
    }
    if r != [] {
      assert !IsSpace(r[0]) by {
        TrimStartSpec(s);
        assert r[0] == t[0];
      }
      assert !IsSpace(r[|r| - 1]) by {
        TrimEndSpec(t);
      }
    }
  }

  /** A prefix `r` of a suffix `t` of `s` is a slice of `s`, and what follows it in `t` is what follows it in `s`. */
  lemma MiddleSlice(s: string, t: string, r: string)
    requires |t| <= |s| && t == s[|s| - |t|..]
    requires |r| <= |t| && r == t[..|r|]
    ensures var n := |s| - |t|;
      n + |r| <= |s| && r == s[n..n + |r|] && s[n + |r|..] == t[|r|..]
  {
    var n := |s| - |t|;
    assert forall k :: 0 <= k < |r| ==> r[k] == s[n + k];
  }

  /** A string trims to the empty string exactly when it is all white space. */
  lemma TrimEmptyIff(s: string)
    ensures Trim(s) == "" <==> AllSpace(s)
  {
    TrimSpec(s);
    var i := |s| - |TrimStart(s)|;
    var r := Trim(s);
    if r == "" {
      forall k | 0 <= k < |s| ensures IsSpace(s[k]) {
        if k < i {
          assert s[k] == s[..i][k];
        } else {
          assert s[k] == s[i..][k - i];
        }
      }
    } else {
      assert r[0] == s[i];
    }
  }

  /** Trimming twice is trimming once. */
  lemma TrimIdempotent(s: string)
    ensures Trim(Trim(s)) == Trim(s)
  {
    TrimSpec(s);
    var t := Trim(s);
    if t != [] {
      assert !IsSpace(t[0]) && !IsSpace(t[|t| - 1]);
      assert TrimStart(t) == t;
      assert TrimEnd(t) == t;
    }
  }

  // ------------------------------------------------------------ integers as text

  function Digit(d: nat): char
    requires d < 10
  {
    "0123456789"[d]
  }

  /** The decimal form of a natural number, as a template literal prints it. */
  function Decimal(n: nat): (r: string)
    ensures |r| >= 1
    ensures forall c :: c in r ==> '0' <= c <= '9'
  {
    if n < 10 then [Digit(n)] else Decimal(n / 10) + [Digit(n % 10)]
  }

  /** `${i}` of an integer. */
  function IntString(i: int): string
  {
    if i < 0 then "-" + Decimal(-i) else Decimal(i)
  }

  lemma {:induction false} DecimalInjective(m: nat, n: nat)
    requires Decimal(m) == Decimal(n)
    ensures m == n
  {
    if m >= 10 && n >= 10 {
      var dm := Decimal(m);
      assert dm[..|dm| - 1] == Decimal(m / 10);
      assert Decimal(n)[..|Decimal(n)| - 1] == Decimal(n / 10);
      DecimalInjective(m / 10, n / 10);
      assert Digit(m % 10) == dm[|dm| - 1] == Digit(n % 10);
    }
  }

  lemma SignFirst(i: int)
    ensures IntString(i)[0] == '-' <==> i < 0
  {
    if i >= 0 {
      assert IntString(i)[0] in Decimal(i);
    }
  }

  lemma IntStringInjective(i: int, j: int)
    requires IntString(i) == IntString(j)
    ensures i == j
  {
    SignFirst(i);
    SignFirst(j);
    if i < 0 && j < 0 {
      assert Decimal(-i) == IntString(i)[1..];
      assert Decimal(-j) == IntString(j)[1..];
      DecimalInjective(-i, -j);
    } else if i >= 0 && j >= 0 {
      DecimalInjective(i, j);
    }
  }

  // ------------------------------------------------------------ string order

  /** Lexicographic order on characters (Unicode scalar values), with a prefix before its extensions. */
  predicate LexLe(a: string, b: string)
  {
    a == [] || (b != [] && (a[0] < b[0] || (a[0] == b[0] && LexLe(a[1..], b[1..]))))
  }

  lemma {:induction false} LexTotal(a: string, b: string)
    ensures LexLe(a, b) || LexLe(b, a)
  {
    if a != [] && b != [] && a[0] == b[0] {
      LexTotal(a[1..], b[1..]);
    }
  }

  lemma {:induction false} LexTransitive(a: string, b: string, c: string)
    requires LexLe(a, b) && LexLe(b, c)
    ensures LexLe(a, c)
  {
    if a != [] && a[0] == b[0] && b[0] == c[0] {
      LexTransitive(a[1..], b[1..], c[1..]);
    }
  }

  lemma {:induction false} LexAntisymmetric(a: string, b: string)
    requires LexLe(a, b) && LexLe(b, a)
    ensures a == b
  {
    if a != [] {
      LexAntisymmetric(a[1..], b[1..]);
      assert a == [a[0]] + a[1..] && b == [b[0]] + b[1..];
    }
  }
}
