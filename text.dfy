/** The Kotlin text operations the FEN codec relies on: `trim()`, splitting
    on the regex `\s+`, splitting on one delimiter, `toIntOrNull()` and
    `Int.toString()`. Only ASCII digits count as digits here. */
module Text {
  import opened Wrappers

  /** `Char.isWhitespace()`: the ASCII controls 9..13 and 28..31, and the
      Unicode space, line and paragraph separators. This is the set `trim()`
      removes. */
  predicate IsWhitespace(c: char) {
    var n := c as int;
    (9 <= n <= 13) || (28 <= n <= 32) || n == 0xA0 || n == 0x1680
    || (0x2000 <= n <= 0x200A) || n == 0x2028 || n == 0x2029
    || n == 0x202F || n == 0x205F || n == 0x3000
  }

  /** The regex class `\s`: space, tab, line feed, vertical tab, form feed
      and carriage return. */
  predicate IsRegexSpace(c: char) {
    var n := c as int;
    n == 32 || (9 <= n <= 13)
  }

  lemma RegexSpaceIsWhitespace(c: char)
    ensures IsRegexSpace(c) ==> IsWhitespace(c)
  {
  }

  /** No character of `s` is whitespace. */
  predicate Solid(s: string) {
    forall k :: 0 <= k < |s| ==> !IsWhitespace(s[k])
  }

  // ---------------------------------------------------------------- trim

  function TrimStart(s: string): (t: string)
    ensures |t| <= |s| && t == s[|s| - |t|..]
    ensures forall k :: 0 <= k < |s| - |t| ==> IsWhitespace(s[k])
    ensures t != [] ==> !IsWhitespace(t[0])
  {
    if s != [] && IsWhitespace(s[0]) then
      var t := TrimStart(s[1..]);
      assert s[1..][|s| - 1 - |t|..] == s[|s| - |t|..];
      assert forall k :: 1 <= k < |s| - |t| ==> s[k] == s[1..][k - 1];
      t
    else s
  }

  function TrimEnd(s: string): (t: string)
    ensures |t| <= |s| && t == s[..|t|]
    ensures forall k :: |t| <= k < |s| ==> IsWhitespace(s[k])
    ensures t != [] ==> !IsWhitespace(t[|t| - 1])
  {
    if s != [] && IsWhitespace(s[|s| - 1]) then
      var t := TrimEnd(s[..|s| - 1]);
      assert s[..|s| - 1][..|t|] == s[..|t|];
      t
    else s
  }

  /** `t` is the infix of `s` starting at `i`, and every character of `s`
      outside it is whitespace. */
  predicate WhitespaceAround(s: string, i: int, t: string) {
    0 <= i && i + |t| <= |s| && t == s[i..i + |t|]
    && (forall k :: 0 <= k < i ==> IsWhitespace(s[k]))
    && (forall k :: i + |t| <= k < |s| ==> IsWhitespace(s[k]))
  }

  /** Dropping whitespace from the front of `s` to get `u`, then from the
      back of `u` to get `t`, leaves `t` as an infix of `s` with only
      whitespace around it. */
  lemma DroppedAround(s: string, u: string, t: string)
    requires |u| <= |s| && u == s[|s| - |u|..]
    requires forall k :: 0 <= k < |s| - |u| ==> IsWhitespace(s[k])
    requires |t| <= |u| && t == u[..|t|]
    requires forall k :: |t| <= k < |u| ==> IsWhitespace(u[k])
    ensures WhitespaceAround(s, |s| - |u|, t)
  {
    var i := |s| - |u|;
    forall k | i + |t| <= k < |s|
      ensures IsWhitespace(s[k])
    {
      assert s[k] == u[k - i];
    }
  }

  /** `trim()`: drops leading and trailing whitespace. The result is the
      infix of `s` left after the leading whitespace and some trailing
      whitespace, and it neither starts nor ends with whitespace. */
  function Trim(s: string): (t: string)
    ensures WhitespaceAround(s, |s| - |TrimStart(s)|, t)
    ensures t != [] ==> !IsWhitespace(t[0]) && !IsWhitespace(t[|t| - 1])
  {
    var u := TrimStart(s);
    var t := TrimEnd(u);
    DroppedAround(s, u, t);
    t
  }

  /** A string that starts and ends with non-whitespace is its own trim. */
  lemma TrimSolidEnds(s: string)
    requires s != [] && !IsWhitespace(s[0]) && !IsWhitespace(s[|s| - 1])
    ensures Trim(s) == s
  {
  }

  // ------------------------------------------------------- split on \s+

  /** The longest prefix of `s` free of `\s` characters. */
  function Word(s: string): (w: string)
    ensures |w| <= |s| && w == s[..|w|]
    ensures forall k :: 0 <= k < |w| ==> !IsRegexSpace(w[k])
    ensures |w| < |s| ==> IsRegexSpace(s[|w|])
  {
    if s == [] || IsRegexSpace(s[0]) then [] else [s[0]] + Word(s[1..])
  }

  /** The maximal runs of non-`\s` characters of `s`, in order. */
  function Fields(s: string): (fs: seq<string>)
    ensures forall k :: 0 <= k < |fs| ==> fs[k] != []
    ensures forall k, j :: 0 <= k < |fs| && 0 <= j < |fs[k]| ==> !IsRegexSpace(fs[k][j])
    decreases |s|
  {
    if s == [] then []
    else if IsRegexSpace(s[0]) then Fields(s[1..])
    else
      var w := Word(s);
      [w] + Fields(s[|w|..])
  }

  /** `s.trim().split(Regex("\\s+"))`. Once trimmed, the text neither starts
      nor ends with a `\s` character, so the split yields exactly its
      maximal runs, except that an empty text splits into one empty piece. */
  function Parts(s: string): (ps: seq<string>)
    ensures |ps| >= 1
  {
    var t := Trim(s);
    if t == [] then [""] else Fields(t)
  }

  /** Joining with a delimiter, the inverse of splitting on it. */
  function Join(ps: seq<string>, d: char): (s: string)
    requires |ps| >= 1
  {
    if |ps| == 1 then ps[0] else ps[0] + [d] + Join(ps[1..], d)
  }
  /** Six strings joined with single spaces, written out. */
  lemma JoinSix(fs: seq<string>)
    requires |fs| == 6
    ensures Join(fs, ' ') == fs[0] + " " + fs[1] + " " + fs[2] + " " + fs[3] + " " + fs[4] + " " + fs[5]
  {
    assert Join(fs[4..], ' ') == fs[4] + " " + fs[5];
    assert Join(fs[2..], ' ') == fs[2] + " " + Join(fs[3..], ' ');
  }

  /** Joining two non-empty lists is joining each and putting `d` between. */
  lemma {:induction false} JoinConcat(xs: seq<string>, ys: seq<string>, d: char)
    requires |xs| >= 1 && |ys| >= 1
    ensures Join(xs + ys, d) == Join(xs, d) + [d] + Join(ys, d)
  {
    if |xs| > 1 {
      JoinConcat(xs[1..], ys, d);
      assert (xs + ys)[1..] == xs[1..] + ys;
    }
  }


  lemma {:induction false} WordOfPrefix(x: string, y: string)
    requires forall k :: 0 <= k < |x| ==> !IsRegexSpace(x[k])
    requires y == [] || IsRegexSpace(y[0])
    ensures Word(x + y) == x
  {
    if x != [] {
      assert (x + y)[1..] == x[1..] + y;
      WordOfPrefix(x[1..], y);
    } else {
      assert x + y == y;
    }
  }

  lemma {:induction false} FieldsOfJoin(fs: seq<string>)
    requires |fs| >= 1
    requires forall k :: 0 <= k < |fs| ==> fs[k] != [] && Solid(fs[k])
    ensures Fields(Join(fs, ' ')) == fs
  {
    var x := fs[0];
    forall k | 0 <= k < |x| ensures !IsRegexSpace(x[k]) {
      RegexSpaceIsWhitespace(x[k]);
    }
    if |fs| == 1 {
      WordOfPrefix(x, []);
      assert x + [] == x;
      assert x[|x|..] == [];
    } else {
      var rest := Join(fs[1..], ' ');
      var spaced := [' '] + rest;
      var s := Join(fs, ' ');
      assert s == x + spaced;
      WordOfPrefix(x, spaced);
      assert s[0] == x[0];
      assert Fields(s) == [x] + Fields(s[|x|..]);
      assert s[|x|..] == spaced;
      assert spaced[1..] == rest;
      assert Fields(spaced) == Fields(rest);
      FieldsOfJoin(fs[1..]);
      assert fs == [x] + fs[1..];
    }
  }

  lemma {:induction false} JoinEnds(fs: seq<string>, d: char)
    requires |fs| >= 1 && forall k :: 0 <= k < |fs| ==> fs[k] != []
    ensures var s := Join(fs, d); s != [] && s[0] == fs[0][0] && s[|s| - 1] == fs[|fs| - 1][|fs[|fs| - 1]| - 1]
  {
    if |fs| > 1 {
      JoinEnds(fs[1..], d);
    }
  }

  /** Splitting a space-joined list of non-empty, whitespace-free fields on
      `\s+` (after trimming) gives the fields back. */
  lemma {:induction false} PartsOfJoin(fs: seq<string>)
    requires |fs| >= 1
    requires forall k :: 0 <= k < |fs| ==> fs[k] != [] && Solid(fs[k])
    ensures Parts(Join(fs, ' ')) == fs
  {
    JoinEnds(fs, ' ');
    TrimSolidEnds(Join(fs, ' '));
    FieldsOfJoin(fs);
  }

  // --------------------------------------------------- split on one char

  /** `s.split(d)` for a one-character delimiter: the pieces between
      delimiters, empty ones included, so there is always at least one. */
  function Split(s: string, d: char): (ps: seq<string>)
    ensures |ps| >= 1
    ensures forall k :: 0 <= k < |ps| ==> d !in ps[k]
  {
    if s == [] then [""]
    else
      var rest := Split(s[1..], d);
      if s[0] == d then [""] + rest
      else [[s[0]] + rest[0]] + rest[1..]
  }

  /** Joining the pieces gives back the text. */
  lemma {:induction false} JoinSplit(s: string, d: char)
    ensures Join(Split(s, d), d) == s
  {
    if s != [] {
      var rest := Split(s[1..], d);
      JoinSplit(s[1..], d);
      if s[0] == d {
        assert s == [d] + s[1..];
      } else if |rest| == 1 {
        assert s == [s[0]] + s[1..];
      } else {
        var ps := Split(s, d);
        var tail := Join(rest[1..], d);
        assert ps[1..] == rest[1..];
        assert Join(ps, d) == ([s[0]] + rest[0]) + [d] + tail;
        assert Join(rest, d) == rest[0] + [d] + tail;
        assert ([s[0]] + rest[0]) + [d] + tail == [s[0]] + (rest[0] + [d] + tail);
        assert s == [s[0]] + s[1..];
      }
    }
  }

  /** A piece followed by the delimiter splits off as the first piece. */
  lemma {:induction false} SplitPrefix(x: string, y: string, d: char)
    requires d !in x
    ensures Split(x + [d] + y, d) == [x] + Split(y, d)
  {
    if x == [] {
      assert x + [d] + y == [d] + y;
      assert ([d] + y)[1..] == y;
    } else {
      assert (x + [d] + y)[1..] == x[1..] + [d] + y;
      SplitPrefix(x[1..], y, d);
      assert [x[0]] + x[1..] == x;
    }
  }

  lemma {:induction false} SplitWhole(x: string, d: char)
    requires d !in x
    ensures Split(x, d) == [x]
  {
    if x != [] {
      SplitWhole(x[1..], d);
      assert [x[0]] + x[1..] == x;
    }
  }

  /** Splitting undoes joining pieces that do not contain the delimiter. */
  lemma {:induction false} SplitJoin(ps: seq<string>, d: char)
    requires |ps| >= 1
    requires forall k :: 0 <= k < |ps| ==> d !in ps[k]
    ensures Split(Join(ps, d), d) == ps
  {
    if |ps| == 1 {
      SplitWhole(ps[0], d);
    } else {
      SplitPrefix(ps[0], Join(ps[1..], d), d);
      SplitJoin(ps[1..], d);
      assert ps == [ps[0]] + ps[1..];
    }
  }

  // ------------------------------------------------------------ integers

  const Int32Min: int := -0x8000_0000
  const Int32Max: int := 0x7FFF_FFFF

  predicate IsDigit(c: char) {
    '0' <= c <= '9'
  }

  function DigitValue(c: char): (d: int)
    requires IsDigit(c)
    ensures 0 <= d <= 9
  {
    c as int - '0' as int
  }

  function DigitChar(d: int): (c: char)
    requires 0 <= d <= 9
    ensures IsDigit(c) && DigitValue(c) == d
  {
    ('0' as int + d) as char
  }

  predicate AllDigits(s: string) {
    forall k :: 0 <= k < |s| ==> IsDigit(s[k])
  }

  /** The value of a string of decimal digits, most significant first. */
  function DigitsValue(s: string): nat
    requires AllDigits(s)
  {
    if s == [] then 0 else DigitsValue(s[..|s| - 1]) * 10 + DigitValue(s[|s| - 1])
  }

  /** The decimal digits of `n`, without leading zeros. */
  function NatText(n: nat): (s: string)
    ensures s != [] && AllDigits(s)
  {
    if n < 10 then [DigitChar(n)] else NatText(n / 10) + [DigitChar(n % 10)]
  }

  /** `Int.toString()`: a minus sign for negatives, then the digits. */
  function IntText(n: int): (s: string)
    ensures s != [] && IsDigit(s[|s| - 1])
    ensures Solid(s) && '/' !in s
  {
    if n < 0 then "-" + NatText(-n) else NatText(n)
  }

  /** `toIntOrNull()`: an optional `-` or `+`, then at least one digit, and
      the value must fit in 32 bits. */
  function ParseInt(s: string): (r: Option<int>)
    ensures r.Some? ==> Int32Min <= r.value <= Int32Max
  {
    if s == [] then None
    else if s[0] < '0' then
      if |s| == 1 || !AllDigits(s[1..]) then None
      else if s[0] == '-' then
        (var v: int := DigitsValue(s[1..]); if -v >= Int32Min then Some(-v) else None)
      else if s[0] == '+' then
        (if DigitsValue(s[1..]) <= Int32Max then Some(DigitsValue(s[1..])) else None)
      else None
    else if AllDigits(s) && DigitsValue(s) <= Int32Max then Some(DigitsValue(s))
    else None
  }

  /** `toIntOrNull()` exactly: the text is an optional sign followed by a
      non-empty run of digits whose signed value fits in 32 bits, and then
      the result is that signed value. */
  lemma ParseIntSpec(s: string)
    ensures var signed := s != [] && (s[0] == '-' || s[0] == '+');
      var digits := if signed then s[1..] else s;
      var negative := s != [] && s[0] == '-';
      ParseInt(s).Some? <==>
        digits != [] && AllDigits(digits)
        && Int32Min <= (if negative then -(DigitsValue(digits) as int) else DigitsValue(digits)) <= Int32Max
    ensures ParseInt(s).Some? ==>
      var digits := if s[0] == '-' || s[0] == '+' then s[1..] else s;
      AllDigits(digits) && ParseInt(s).value == (if s[0] == '-' then -(DigitsValue(digits) as int) else DigitsValue(digits))
  {
    if s != [] && s[0] >= '0' && s[0] != '-' && s[0] != '+' && AllDigits(s) {
      assert ParseInt(s) == if DigitsValue(s) <= Int32Max then Some(DigitsValue(s)) else None;
    }
  }

  lemma {:induction false} NatTextValue(n: nat)
    ensures DigitsValue(NatText(n)) == n
  {
    if n >= 10 {
      NatTextValue(n / 10);
      var s := NatText(n);
      assert s[..|s| - 1] == NatText(n / 10);
    }
  }

  /** Printing a 32-bit integer and parsing it back gives the integer. */
  lemma ParseIntText(n: int)
    requires Int32Min <= n <= Int32Max
    ensures ParseInt(IntText(n)) == Some(n)
  {
    if n < 0 {
      NegativeRead(-n);
    } else {
      var s := NatText(n);
      NatTextValue(n);
      assert IsDigit(s[0]);
    }
  }

  lemma NegativeRead(m: nat)
    requires 0 < m <= -Int32Min
    ensures ParseInt("-" + NatText(m)) == Some(-(m as int))
  {
    var digits := NatText(m);
    var s := "-" + digits;
    NatTextValue(m);
    assert s[0] == '-' && s[1..] == digits;
    assert ParseInt(s) == (var v: int := DigitsValue(digits); if -v >= Int32Min then Some(-v) else None);
  }
}
