/** The handful of Python string operations the bot relies on: `strip()`,
    `lower()`, `split(c)`, `sep.join(xs)` and `replace(c, "")`. */
module Text {

  /** Python's `str.isspace()` for one code point: the characters that
      `str.strip()` with no argument removes. */
  predicate IsSpace(c: char) {
    var k := c as int;
    || (9 <= k <= 13) || (28 <= k <= 32)
    || k == 0x85 || k == 0xA0 || k == 0x1680
    || (0x2000 <= k <= 0x200A)
    || k == 0x2028 || k == 0x2029 || k == 0x202F || k == 0x205F || k == 0x3000
  }

  predicate AllSpace(s: string) {
    forall i :: 0 <= i < |s| ==> IsSpace(s[i])
  }

  /** `s.lstrip()`. */
  function TrimLeft(s: string): string
    decreases |s|
  {
    if |s| > 0 && IsSpace(s[0]) then TrimLeft(s[1..]) else s
  }

  /** `s.rstrip()`. */
  function TrimRight(s: string): string
    decreases |s|
  {
    if |s| > 0 && IsSpace(s[|s| - 1]) then TrimRight(s[..|s| - 1]) else s
  }

  /** A left trim is the suffix of `s` after its leading whitespace. */
  lemma {:induction false} TrimLeftShape(s: string)
    ensures |TrimLeft(s)| <= |s| && TrimLeft(s) == s[|s| - |TrimLeft(s)|..]
    ensures AllSpace(s[..|s| - |TrimLeft(s)|])
    ensures TrimLeft(s) == [] || !IsSpace(TrimLeft(s)[0])
    decreases |s|
  {
    if |s| > 0 && IsSpace(s[0]) {
      TrimLeftShape(s[1..]);
      var n := |s| - |TrimLeft(s)|;
      assert s[1..][..n - 1] == s[1..n];
      assert forall i :: 1 <= i < n ==> s[i] == s[1..n][i - 1];
    }
  }

  /** A right trim is the prefix of `s` before its trailing whitespace. */
  lemma {:induction false} TrimRightShape(s: string)
    ensures |TrimRight(s)| <= |s| && TrimRight(s) == s[..|TrimRight(s)|]
    ensures AllSpace(s[|TrimRight(s)|..])
    ensures TrimRight(s) == [] || !IsSpace(TrimRight(s)[|TrimRight(s)| - 1])
    decreases |s|
  {
    if |s| > 0 && IsSpace(s[|s| - 1]) {
      var k := |s| - 1;
      TrimRightShape(s[..k]);
      var m := |TrimRight(s)|;
      assert s[..k][m..] == s[m..k];
      assert forall i :: m <= i < k ==> s[i] == s[m..k][i - m];
    }
  }

  /** `s.strip()`. */
  function Strip(s: string): (r: string)
    ensures |r| <= |s|
    ensures r == [] || (!IsSpace(r[0]) && !IsSpace(r[|r| - 1]))
    ensures r == [] <==> AllSpace(s)
    ensures exists i, j :: 0 <= i <= j <= |s| && r == s[i..j] && AllSpace(s[..i]) && AllSpace(s[j..])
  {
    var left := TrimLeft(s);
    var r := TrimRight(left);
    TrimLeftShape(s);
    TrimRightShape(left);
    var i := |s| - |left|;
    var j := i + |r|;
    assert r == s[i..j] && s[j..] == left[|r|..];
    assert r == [] ==> AllSpace(s) by {
      if r == [] {
        assert left[|r|..] == left;
        assert left == [];
        assert s[..|s|] == s;
      }
    }
    assert r != [] ==> !IsSpace(r[0]) by {
      if r != [] {
        assert r[0] == left[0];
      }
    }
    r
  }

  /** Stripping twice is stripping once. */
  lemma StripIdempotent(s: string)
    ensures Strip(Strip(s)) == Strip(s)
  {
    var r := Strip(s);
    assert TrimLeft(r) == r;
    assert TrimRight(r) == r;
  }

  lemma {:induction false} TrimLeftSkipsSpace(w: string, t: string)
    requires AllSpace(w)
    ensures TrimLeft(w + t) == TrimLeft(t)
    decreases |w|
  {
    if |w| > 0 {
      assert (w + t)[1..] == w[1..] + t;
      TrimLeftSkipsSpace(w[1..], t);
    } else {
      assert w + t == t;
    }
  }

  lemma {:induction false} TrimRightSkipsSpace(t: string, w: string)
    requires AllSpace(w)
    ensures TrimRight(t + w) == TrimRight(t)
    decreases |w|
  {
    if |w| > 0 {
      assert (t + w)[..|t + w| - 1] == t + w[..|w| - 1];
      TrimRightSkipsSpace(t, w[..|w| - 1]);
    } else {
      assert t + w == t;
    }
  }

  /** Whitespace after the text survives a left trim unchanged, unless the
      text is itself all whitespace. */
  lemma {:induction false} TrimLeftKeepsTail(t: string, w: string)
    requires !AllSpace(t)
    ensures TrimLeft(t + w) == TrimLeft(t) + w
    decreases |t|
  {
    assert |t| > 0;
    if IsSpace(t[0]) {
      assert (t + w)[1..] == t[1..] + w;
      assert !AllSpace(t[1..]) by {
        var j :| 0 <= j < |t| && !IsSpace(t[j]);
        assert t[1..][j - 1] == t[j];
      }
      TrimLeftKeepsTail(t[1..], w);
    }
  }

  /** Surrounding whitespace never changes what `strip()` returns. */
  lemma StripIgnoresSurroundingSpace(w1: string, t: string, w2: string)
    requires AllSpace(w1) && AllSpace(w2)
    ensures Strip(w1 + t + w2) == Strip(t)
  {
    assert w1 + t + w2 == w1 + (t + w2);
    TrimLeftSkipsSpace(w1, t + w2);
    if AllSpace(t) {
      assert AllSpace(t + w2);
      TrimLeftSkipsSpace(t + w2, []);
      assert t + w2 + [] == t + w2;
      assert TrimLeft(t + w2) == [];
      assert Strip(t) == [];
    } else {
      TrimLeftKeepsTail(t, w2);
      TrimRightSkipsSpace(TrimLeft(t), w2);
    }
  }

  /** The converse of `Strip`'s contract: a text with no whitespace at
      either end, surrounded by whitespace, is exactly what `Strip` keeps. */
  lemma StripExact(w1: string, t: string, w2: string)
    requires AllSpace(w1) && AllSpace(w2)
    requires t == [] || (!IsSpace(t[0]) && !IsSpace(t[|t| - 1]))
    ensures Strip(w1 + t + w2) == t
  {
    StripIgnoresSurroundingSpace(w1, t, w2);
    StripKeeps(t);
  }

  /** A text with no whitespace at either end is its own strip. */
  lemma StripKeeps(t: string)
    requires t == [] || (!IsSpace(t[0]) && !IsSpace(t[|t| - 1]))
    ensures Strip(t) == t
  {
    assert TrimLeft(t) == t;
    assert TrimRight(t) == t;
  }

  /** `c.lower()` for the ASCII letters; every other character is kept. */
  function LowerChar(c: char): char {
    if 'A' <= c <= 'Z' then (c as int + 32) as char else c
  }

  /** `s.lower()`, restricted to ASCII case folding. */
  function Lower(s: string): (r: string)
    ensures |r| == |s|
    ensures forall i :: 0 <= i < |s| ==> r[i] == LowerChar(s[i])
    decreases |s|
  {
    if |s| == 0 then "" else [LowerChar(s[0])] + Lower(s[1..])
  }

  /** Lower-casing is idempotent. */
  lemma LowerIdempotent(s: string)
    ensures Lower(Lower(s)) == Lower(s)
  {
  }

  lemma LowerKeepsSpace(c: char)
    ensures IsSpace(LowerChar(c)) == IsSpace(c)
  {
  }

  lemma {:induction false} LowerTrimLeft(s: string)
    ensures TrimLeft(Lower(s)) == Lower(TrimLeft(s))
    decreases |s|
  {
    if |s| > 0 {
      var l := Lower(s);
      assert l[1..] == Lower(s[1..]);
      LowerKeepsSpace(s[0]);
      LowerTrimLeft(s[1..]);
      if IsSpace(s[0]) {
        assert TrimLeft(l) == TrimLeft(l[1..]);
        assert TrimLeft(s) == TrimLeft(s[1..]);
      } else {
        assert TrimLeft(l) == l;
        assert TrimLeft(s) == s;
      }
    }
  }

  lemma {:induction false} LowerTrimRight(s: string)
    ensures TrimRight(Lower(s)) == Lower(TrimRight(s))
    decreases |s|
  {
    if |s| > 0 {
      var k := |s| - 1;
      var l := Lower(s);
      assert l[..k] == Lower(s[..k]);
      LowerKeepsSpace(s[k]);
      LowerTrimRight(s[..k]);
      if IsSpace(s[k]) {
        assert TrimRight(l) == TrimRight(l[..k]);
        assert TrimRight(s) == TrimRight(s[..k]);
      } else {
        assert TrimRight(l) == l;
        assert TrimRight(s) == s;
      }
    }
  }

  /** `s.strip().lower() == s.lower().strip()`: case folding never creates or
      destroys whitespace. */
  lemma LowerCommutesWithStrip(s: string)
    ensures Strip(Lower(s)) == Lower(Strip(s))
  {
    LowerTrimLeft(s);
    LowerTrimRight(TrimLeft(s));
  }

  /** Number of occurrences of `c` in `s`. */
  function Count(s: string, c: char): nat {
    if |s| == 0 then 0 else (if s[0] == c then 1 else 0) + Count(s[1..], c)
  }

  /** `s.split(c)` for a one-character separator: the fields between the
      separators, always at least one (`"".split(",") == [""]`). */
  function Split(s: string, c: char): (r: seq<string>)
    ensures |r| == Count(s, c) + 1
    ensures forall i :: 0 <= i < |r| ==> c !in r[i]
    decreases |s|
  {
    if |s| == 0 then [""]
    else
      var rest := Split(s[1..], c);
      if s[0] == c then [""] + rest
      else [[s[0]] + rest[0]] + rest[1..]
  }

  /** `sep.join(xs)`. */
  function Join(xs: seq<string>, sep: string): string
    decreases |xs|
  {
    if |xs| == 0 then ""
    else if |xs| == 1 then xs[0]
    else xs[0] + sep + Join(xs[1..], sep)
  }

  /** Joining one more element puts exactly one separator in front of it. */
  lemma {:induction false} JoinSnoc(xs: seq<string>, x: string, sep: string)
    requires |xs| > 0
    ensures Join(xs + [x], sep) == Join(xs, sep) + sep + x
    decreases |xs|
  {
    if |xs| > 1 {
      assert (xs + [x])[1..] == xs[1..] + [x];
      JoinSnoc(xs[1..], x, sep);
    }
  }

  /** Joining the fields back with the separator gives the original text. */
  lemma {:induction false} SplitJoin(s: string, c: char)
    ensures Join(Split(s, c), [c]) == s
    decreases |s|
  {
    if |s| > 0 {
      var rest := Split(s[1..], c);
      SplitJoin(s[1..], c);
      if s[0] == c {
        assert ([""] + rest)[1..] == rest;
      } else if |rest| > 1 {
        var r := [[s[0]] + rest[0]] + rest[1..];
        assert r[1..] == rest[1..];
        assert Join(rest, [c]) == rest[0] + [c] + Join(rest[1..], [c]);
        assert s == [s[0]] + s[1..];
      } else {
        assert s == [s[0]] + s[1..];
      }
    }
  }

  /** A separator splits the text into the fields before it and after it. */
  lemma {:induction false} SplitAppend(a: string, b: string, c: char)
    ensures Split(a + [c] + b, c) == Split(a, c) + Split(b, c)
    decreases |a|
  {
    if |a| == 0 {
      assert a + [c] + b == [c] + b;
      assert ([c] + b)[1..] == b;
    } else {
      assert (a + [c] + b)[1..] == a[1..] + [c] + b;
      SplitAppend(a[1..], b, c);
    }
  }

  /** Text without the separator is a single field. */
  lemma {:induction false} SplitNoSeparator(a: string, c: char)
    requires c !in a
    ensures Split(a, c) == [a]
    decreases |a|
  {
    if |a| > 0 {
      assert c !in a[1..];
      SplitNoSeparator(a[1..], c);
      assert a == [a[0]] + a[1..];
    }
  }

  /** The first field is the text up to (not including) the first separator. */
  lemma SplitHead(a: string, b: string, c: char)
    requires c !in a
    ensures Split(a + [c] + b, c)[0] == a
  {
    SplitAppend(a, b, c);
    SplitNoSeparator(a, c);
  }

  /** The first field is a prefix of the text. */
  lemma {:induction false} SplitHeadPrefix(s: string, c: char)
    ensures |Split(s, c)[0]| <= |s| && Split(s, c)[0] == s[..|Split(s, c)[0]|]
    decreases |s|
  {
    if |s| > 0 {
      SplitHeadPrefix(s[1..], c);
    }
  }

  /** Splitting the joined fields gives the fields back, provided no field
      holds the separator. */
  lemma {:induction false} JoinSplit(xs: seq<string>, c: char)
    requires |xs| > 0
    requires forall i :: 0 <= i < |xs| ==> c !in xs[i]
    ensures Split(Join(xs, [c]), c) == xs
    decreases |xs|
  {
    if |xs| == 1 {
      SplitNoSeparator(xs[0], c);
    } else {
      JoinSplit(xs[1..], c);
      SplitAppend(xs[0], Join(xs[1..], [c]), c);
      SplitNoSeparator(xs[0], c);
      assert [xs[0]] + xs[1..] == xs;
    }
  }

  /** `s.replace(c, "")`. */
  function RemoveAll(s: string, c: char): (r: string)
    ensures |r| <= |s|
    ensures forall x :: x in r <==> x in s && x != c
    decreases |s|
  {
    if |s| == 0 then ""
    else (if s[0] == c then "" else [s[0]]) + RemoveAll(s[1..], c)
  }

  /** Removal works piecewise. */
  lemma {:induction false} RemoveAllAppend(a: string, b: string, c: char)
    ensures RemoveAll(a + b, c) == RemoveAll(a, c) + RemoveAll(b, c)
    decreases |a|
  {
    if |a| == 0 {
      assert a + b == b;
    } else {
      assert (a + b)[1..] == a[1..] + b;
      RemoveAllAppend(a[1..], b, c);
    }
  }

  /** Text without `c` is left as it is. */
  lemma {:induction false} RemoveAllAbsent(s: string, c: char)
    requires c !in s
    ensures RemoveAll(s, c) == s
    decreases |s|
  {
    if |s| > 0 {
      assert c !in s[1..];
      RemoveAllAbsent(s[1..], c);
      assert s == [s[0]] + s[1..];
    }
  }
}
