/** The Python string operations the scripts rely on: `str.split` with a
    one-character separator, `str.join`, `str.replace` and the decimal
    rendering of an integer in an f-string. */
module Strings {
  import opened Results

  /** Number of occurrences of `c` in `s`. */
  function Count(s: string, c: char): nat
  {
    if s == [] then 0 else (if s[0] == c then 1 else 0) + Count(s[1..], c)
  }

  /** `s.split(c)`: the maximal runs between occurrences of `c`; an empty string
      gives one empty part. */
  function Split(s: string, c: char): (parts: seq<string>)
    ensures |parts| >= 1
  {
    if s == [] then [""]
    else
      var rest := Split(s[1..], c);
      if s[0] == c then [""] + rest else [[s[0]] + rest[0]] + rest[1..]
  }

  /** `sep.join(parts)`. */
  function Join(parts: seq<string>, sep: string): (r: string)
    ensures |parts| > 0 ==> parts[0] <= r
    ensures |parts| > 1 ==> parts[0] + sep <= r
  {
    if parts == [] then ""
    else if |parts| == 1 then parts[0]
    else parts[0] + sep + Join(parts[1..], sep)
  }

  /** Splitting yields one more part than there are separators, and no part
      holds the separator. */
  lemma {:induction false} SplitParts(s: string, c: char)
    ensures |Split(s, c)| == Count(s, c) + 1
    ensures forall i :: 0 <= i < |Split(s, c)| ==> c !in Split(s, c)[i]
  {
    if s != [] {
      SplitParts(s[1..], c);
    }
  }

  /** Joining the parts of a split with the separator gives back the string. */
  lemma {:induction false} JoinSplit(s: string, c: char)
    ensures Join(Split(s, c), [c]) == s
  {
    if s != [] {
      var rest := Split(s[1..], c);
      JoinSplit(s[1..], c);
      assert s == [s[0]] + s[1..];
      if s[0] == c {
        JoinCons("", rest, [c]);
      } else {
        JoinExtendFirst(s[0], rest, [c]);
      }
    }
  }

  lemma JoinCons(x: string, rest: seq<string>, sep: string)
    requires |rest| >= 1
    ensures Join([x] + rest, sep) == x + sep + Join(rest, sep)
  {
    assert ([x] + rest)[1..] == rest;
  }

  /** Prefixing the first part with `a` prefixes the joined string with `a`. */
  lemma JoinExtendFirst(a: char, parts: seq<string>, sep: string)
    requires |parts| >= 1
    ensures Join([[a] + parts[0]] + parts[1..], sep) == [a] + Join(parts, sep)
  {
    if |parts| > 1 {
      JoinCons([a] + parts[0], parts[1..], sep);
      JoinCons(parts[0], parts[1..], sep);
      assert [parts[0]] + parts[1..] == parts;
    }
  }

  /** Splitting a join of separator-free parts gives back the parts. */
  lemma {:induction false} SplitJoin(parts: seq<string>, c: char)
    requires |parts| >= 1
    requires forall i :: 0 <= i < |parts| ==> c !in parts[i]
    ensures Split(Join(parts, [c]), c) == parts
  {
    if |parts| == 1 {
      SplitNoSeparator(parts[0], c);
    } else {
      SplitJoin(parts[1..], c);
      SplitPrefix(parts[0], Join(parts[1..], [c]), c);
    }
  }

  /** A string free of the separator splits into itself. */
  lemma {:induction false} SplitNoSeparator(s: string, c: char)
    requires c !in s
    ensures Split(s, c) == [s]
  {
    if s != [] {
      assert [s[0]] + s[1..] == s;
      SplitNoSeparator(s[1..], c);
    }
  }

  /** Splitting `a + [c] + b`, with `a` free of `c`, puts `a` first. */
  lemma {:induction false} SplitPrefix(a: string, b: string, c: char)
    requires c !in a
    ensures Split(a + [c] + b, c) == [a] + Split(b, c)
  {
    if a == [] {
      assert a + [c] + b == [c] + b;
      assert ([c] + b)[1..] == b;
    } else {
      SplitPrefix(a[1..], b, c);
      assert (a + [c] + b)[1..] == a[1..] + [c] + b;
      assert [a[0]] + a[1..] == a;
    }
  }

  /** `"".join(f(x) for x in xs)`: the texts of the elements, one after another. */
  function Render<T>(xs: seq<T>, f: T -> string): string
  {
    if xs == [] then "" else Render(xs[..|xs| - 1], f) + f(xs[|xs| - 1])
  }

  lemma RenderSnoc<T>(xs: seq<T>, x: T, f: T -> string)
    ensures Render(xs + [x], f) == Render(xs, f) + f(x)
  {
    assert (xs + [x])[..|xs|] == xs;
  }

  /** A rendering begins with the text of its first element. */
  lemma {:induction false} RenderFirst<T>(xs: seq<T>, f: T -> string)
    requires |xs| > 0
    ensures f(xs[0]) <= Render(xs, f)
  {
    if |xs| > 1 {
      RenderFirst(xs[..|xs| - 1], f);
    }
  }

  /** Rendering a first element, then up to two optional ones, then a last one. */
  lemma {:induction false} RenderAround<T>(first: T, a: Option<T>, b: Option<T>, last: T, f: T -> string)
    ensures Render([first] + (if a.Some? then [a.value] else []) + (if b.Some? then [b.value] else []) + [last], f) ==
      f(first) + (if a.Some? then f(a.value) else "") + (if b.Some? then f(b.value) else "") + f(last)
  {
    var xs := [first];
    var withA := xs + (if a.Some? then [a.value] else []);
    var withB := withA + (if b.Some? then [b.value] else []);
    RenderSnoc([], first, f);
    assert [] + xs == xs;
    if a.Some? {
      RenderSnoc(xs, a.value, f);
    } else {
      assert withA == xs;
    }
    if b.Some? {
      RenderSnoc(withA, b.value, f);
    } else {
      assert withB == withA;
    }
    RenderSnoc(withB, last, f);
  }

  /** `pat` occurs in `s` at index `i`. */
  predicate OccursAt(s: string, pat: string, i: nat)
  {
    i + |pat| <= |s| && s[i..i + |pat|] == pat
  }

  /** `s.replace(pat, rep)` for a non-empty `pat`: every occurrence, scanned left
      to right without overlap, replaced by `rep`. */
  function Replace(s: string, pat: string, rep: string): (r: string)
    requires |pat| > 0
    ensures |rep| == |pat| ==> |r| == |s|
  {
    if |s| < |pat| then s
    else if s[..|pat|] == pat then rep + Replace(s[|pat|..], pat, rep)
    else [s[0]] + Replace(s[1..], pat, rep)
  }

  /** Dropping the first character shifts every occurrence one place left. */
  lemma OccursShift(s: string, pat: string, i: nat)
    requires |s| > 0
    ensures OccursAt(s[1..], pat, i) <==> OccursAt(s, pat, i + 1)
  {
    if i + |pat| <= |s[1..]| {
      assert s[1..][i..i + |pat|] == s[i + 1..i + 1 + |pat|];
    }
  }

  /** A string without the pattern is left unchanged. */
  lemma {:induction false} ReplaceAbsent(s: string, pat: string, rep: string)
    requires |pat| > 0
    requires forall i: nat :: !OccursAt(s, pat, i)
    ensures Replace(s, pat, rep) == s
  {
    if |s| >= |pat| {
      assert !OccursAt(s, pat, 0);
      forall i: nat ensures !OccursAt(s[1..], pat, i) {
        OccursShift(s, pat, i);
      }
      ReplaceAbsent(s[1..], pat, rep);
      assert s == [s[0]] + s[1..];
    }
  }

  /** The first occurrence of the pattern, preceded by `a`, is replaced and `a`
      is kept as it is. */
  lemma {:induction false} ReplaceFirst(a: string, pat: string, b: string, rep: string)
    requires |pat| > 0
    requires forall i: nat :: i < |a| ==> !OccursAt(a + pat + b, pat, i)
    ensures Replace(a + pat + b, pat, rep) == a + rep + Replace(b, pat, rep)
  {
    var s := a + pat + b;
    if a == [] {
      assert s == pat + b;
      ReplaceAtStart(pat, b, rep);
    } else {
      var s' := a[1..] + pat + b;
      assert s[1..] == s';
      ReplaceSkip(s, pat, rep);
      NoOccurrenceShift(s, pat, |a| - 1);
      ReplaceFirst(a[1..], pat, b, rep);
      assert [a[0]] + a[1..] == a;
    }
  }

  lemma NoOccurrenceShift(s: string, pat: string, n: nat)
    requires |s| > 0
    requires forall i: nat :: i < n + 1 ==> !OccursAt(s, pat, i)
    ensures forall i: nat :: i < n ==> !OccursAt(s[1..], pat, i)
  {
    forall i: nat | i < n ensures !OccursAt(s[1..], pat, i) {
      OccursShift(s, pat, i);
    }
  }

  /** A string starting with the pattern starts with the replacement. */
  lemma ReplaceAtStart(pat: string, b: string, rep: string)
    requires |pat| > 0
    ensures Replace(pat + b, pat, rep) == rep + Replace(b, pat, rep)
  {
    assert (pat + b)[..|pat|] == pat;
    assert (pat + b)[|pat|..] == b;
  }

  /** A first character that starts no occurrence is kept. */
  lemma ReplaceSkip(s: string, pat: string, rep: string)
    requires |pat| > 0 && |s| > 0
    requires !OccursAt(s, pat, 0)
    ensures Replace(s, pat, rep) == [s[0]] + Replace(s[1..], pat, rep)
  {
  }

  /** A template holding the pattern exactly once becomes the text around it
      with `rep` in its place. */
  lemma ReplaceOnce(a: string, pat: string, b: string, rep: string)
    requires |pat| > 0
    requires forall i: nat :: i < |a| ==> !OccursAt(a + pat + b, pat, i)
    requires forall i: nat :: !OccursAt(b, pat, i)
    ensures Replace(a + pat + b, pat, rep) == a + rep + b
  {
    ReplaceFirst(a, pat, b, rep);
    ReplaceAbsent(b, pat, rep);
  }

  /** The decimal digits of a natural number, most significant first. */
  function Digits(n: nat): (r: string)
    ensures |r| >= 1
    ensures forall i :: 0 <= i < |r| ==> '0' <= r[i] <= '9'
    decreases n
  {
    if n < 10 then [DigitChar(n)] else Digits(n / 10) + [DigitChar(n % 10)]
  }

  function DigitChar(d: nat): (c: char)
    requires d < 10
    ensures '0' <= c <= '9'
    ensures DigitValue(c) == d
  {
    ('0' as int + d) as char
  }

  /** The value of one decimal digit character. */
  function DigitValue(c: char): nat
    requires '0' <= c <= '9'
  {
    c as int - '0' as int
  }

  predicate AllDigits(s: string)
  {
    forall i :: 0 <= i < |s| ==> '0' <= s[i] <= '9'
  }

  /** The number a string of decimal digits denotes, most significant first:
      the reading `int(s)` gives back. */
  function Value(s: string): nat
    requires AllDigits(s)
  {
    if s == [] then 0 else Value(s[..|s| - 1]) * 10 + DigitValue(s[|s| - 1])
  }

  /** `Digits` reads back as the number it was made from, and has no leading
      zero unless it is the single digit of zero. */
  lemma {:induction false} DigitsValue(n: nat)
    ensures AllDigits(Digits(n))
    ensures Value(Digits(n)) == n
    ensures |Digits(n)| > 1 ==> Digits(n)[0] != '0'
    ensures n > 0 ==> Digits(n)[0] != '0'
    decreases n
  {
    if n >= 10 {
      DigitsValue(n / 10);
      var r := Digits(n);
      assert r[..|r| - 1] == Digits(n / 10);
    }
  }

  /** `str(n)` for an integer, as an f-string renders it. */
  function DecimalString(n: int): (r: string)
    ensures |r| >= 1
    ensures r[0] == '-' <==> n < 0
    ensures forall i :: 0 < i < |r| ==> '0' <= r[i] <= '9'
    ensures n >= 0 ==> '0' <= r[0] <= '9'
    ensures n >= 0 ==> AllDigits(r) && Value(r) == n
    ensures n < 0 ==> AllDigits(r[1..]) && Value(r[1..]) == -n
    ensures |r| > 1 && r[0] != '-' ==> r[0] != '0'
    ensures |r| > 2 && r[0] == '-' ==> r[1] != '0'
  {
    DigitsValue(if n < 0 then -n else n);
    if n < 0 then "-" + Digits(-n) else Digits(n)
  }
}
