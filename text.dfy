/** String primitives of the .NET base library that the core relies on:
    `String.Split` on one separator, the "append a separator after every
    element" idiom, decimal rendering and parsing of integers, ASCII case
    mapping and `String.Trim`. */
module Text {

  // ---------------------------------------------------------------------
  // Splitting and joining on a single separator character
  // ---------------------------------------------------------------------

  /** `s.Split(new[] { sep })`: the pieces between separators, empty pieces
      included, so the empty string splits into one empty piece. */
  function Split(s: string, sep: char): (pieces: seq<string>)
    ensures |pieces| >= 1
    ensures |pieces| == 1 <==> sep !in s
  {
    if s == [] then [""]
    else if s[0] == sep then [""] + Split(s[1..], sep)
    else
      var rest := Split(s[1..], sep);
      [[s[0]] + rest[0]] + rest[1..]
  }

  /** The text a loop builds by appending `x + sep` for every element `x`:
      the separator follows every element, the last one included. */
  function JoinTrailing(items: seq<string>, sep: char): string
  {
    if items == [] then ""
    else JoinTrailing(items[..|items| - 1], sep) + items[|items| - 1] + [sep]
  }

  /** The elements of a non-empty list with `sep` between neighbours. */
  function Joined(items: seq<string>, sep: char): string
    requires items != []
  {
    if |items| == 1 then items[0]
    else items[0] + [sep] + Joined(items[1..], sep)
  }

  /** Appending one more element to a trailing-separator join appends
      that element and a separator. */
  lemma {:induction false} JoinTrailingSnoc(items: seq<string>, x: string, sep: char)
    ensures JoinTrailing(items + [x], sep) == JoinTrailing(items, sep) + x + [sep]
  {
    assert (items + [x])[..|items|] == items;
  }

  /** Prepending one element to a trailing-separator join prepends it and
      a separator. */
  lemma {:induction false} JoinTrailingCons(x: string, items: seq<string>, sep: char)
    ensures JoinTrailing([x] + items, sep) == x + [sep] + JoinTrailing(items, sep)
    decreases |items|
  {
    if items == [] {
      assert [x] + items == [x];
      assert [x][..0] == [];
    } else {
      var init := items[..|items| - 1];
      var last := items[|items| - 1];
      assert items == init + [last];
      assert [x] + items == ([x] + init) + [last];
      JoinTrailingSnoc([x] + init, last, sep);
      JoinTrailingCons(x, init, sep);
      JoinTrailingSnoc(init, last, sep);
    }
  }

  /** The trailing-separator join of a non-empty list is its plain join
      followed by one separator. */
  lemma {:induction false} JoinTrailingIsJoinedPlusSep(items: seq<string>, sep: char)
    requires items != []
    ensures JoinTrailing(items, sep) == Joined(items, sep) + [sep]
    decreases |items|
  {
    if |items| == 1 {
      assert items == [items[0]];
      JoinTrailingCons(items[0], [], sep);
    } else {
      assert items == [items[0]] + items[1..];
      JoinTrailingCons(items[0], items[1..], sep);
      JoinTrailingIsJoinedPlusSep(items[1..], sep);
    }
  }

  /** Joining the pieces of `s` with a trailing separator gives `s` plus
      one separator: the pieces lose nothing. */
  lemma {:induction false} JoinTrailingOfSplit(s: string, sep: char)
    ensures JoinTrailing(Split(s, sep), sep) == s + [sep]
    decreases |s|
  {
    if s == [] {
      assert JoinTrailing([""], sep) == JoinTrailing([], sep) + "" + [sep];
    } else {
      var rest := Split(s[1..], sep);
      JoinTrailingOfSplit(s[1..], sep);
      assert s == [s[0]] + s[1..];
      if s[0] == sep {
        assert Split(s, sep) == [""] + rest;
        JoinTrailingCons("", rest, sep);
        assert JoinTrailing(Split(s, sep), sep) == [sep] + (s[1..] + [sep]);
      } else {
        assert Split(s, sep) == [[s[0]] + rest[0]] + rest[1..];
        JoinTrailingExtendFirst(s[0], rest, sep);
        assert JoinTrailing(Split(s, sep), sep) == [s[0]] + (s[1..] + [sep]);
      }
    }
  }

  /** Prefixing the first piece with one character prefixes the join with it. */
  lemma {:induction false} JoinTrailingExtendFirst(c: char, pieces: seq<string>, sep: char)
    requires pieces != []
    ensures JoinTrailing([[c] + pieces[0]] + pieces[1..], sep) == [c] + JoinTrailing(pieces, sep)
  {
    var tail := JoinTrailing(pieces[1..], sep);
    assert pieces == [pieces[0]] + pieces[1..];
    JoinTrailingCons(pieces[0], pieces[1..], sep);
    JoinTrailingCons([c] + pieces[0], pieces[1..], sep);
    assert ([c] + pieces[0]) + [sep] + tail == [c] + (pieces[0] + [sep] + tail);
  }

  /** Splitting then re-joining gives back the original text, for every
      text (the empty one included). */
  lemma {:induction false} JoinedOfSplit(s: string, sep: char)
    ensures Joined(Split(s, sep), sep) == s
  {
    JoinTrailingOfSplit(s, sep);
    JoinTrailingIsJoinedPlusSep(Split(s, sep), sep);
    assert Joined(Split(s, sep), sep) + [sep] == s + [sep];
    assert Joined(Split(s, sep), sep) == (s + [sep])[..|s|];
  }

  /** Splitting text that holds no separator gives that text alone. */
  lemma {:induction false} SplitNoSep(x: string, sep: char)
    requires sep !in x
    ensures Split(x, sep) == [x]
    decreases |x|
  {
    if x != [] {
      SplitNoSep(x[1..], sep);
      assert [x[0]] + x[1..] == x;
    }
  }

  /** A separator after a separator-free prefix ends the first piece. */
  lemma {:induction false} SplitAfterSep(x: string, y: string, sep: char)
    requires sep !in x
    ensures Split(x + [sep] + y, sep) == [x] + Split(y, sep)
    decreases |x|
  {
    if x == [] {
      assert x + [sep] + y == [sep] + y;
      assert ([sep] + y)[1..] == y;
    } else {
      assert (x + [sep] + y)[1..] == x[1..] + [sep] + y;
      SplitAfterSep(x[1..], y, sep);
      assert [x[0]] + x[1..] == x;
    }
  }

  /** Joining a non-empty list of separator-free elements and splitting
      the result gives the list back. */
  lemma {:induction false} SplitOfJoined(items: seq<string>, sep: char)
    requires items != []
    requires forall k :: 0 <= k < |items| ==> sep !in items[k]
    ensures Split(Joined(items, sep), sep) == items
    decreases |items|
  {
    if |items| == 1 {
      SplitNoSep(items[0], sep);
    } else {
      SplitAfterSep(items[0], Joined(items[1..], sep), sep);
      SplitOfJoined(items[1..], sep);
      assert items == [items[0]] + items[1..];
    }
  }

  /** Splitting a trailing-separator join gives the elements followed by
      one empty piece. */
  lemma {:induction false} SplitOfJoinTrailing(items: seq<string>, sep: char)
    requires forall k :: 0 <= k < |items| ==> sep !in items[k]
    ensures Split(JoinTrailing(items, sep), sep) == items + [""]
  {
    if items == [] {
    } else {
      JoinTrailingIsJoinedPlusSep(items, sep);
      var all := items + [""];
      assert Joined(all, sep) == Joined(items, sep) + [sep] by {
        JoinedSnocEmpty(items, sep);
      }
      forall k | 0 <= k < |all| ensures sep !in all[k] {
        if k < |items| { assert all[k] == items[k]; }
      }
      SplitOfJoined(all, sep);
    }
  }

  /** Appending an empty element to a join appends one separator. */
  lemma {:induction false} JoinedSnocEmpty(items: seq<string>, sep: char)
    requires items != []
    ensures Joined(items + [""], sep) == Joined(items, sep) + [sep]
    decreases |items|
  {
    if |items| == 1 {
      assert (items + [""])[1..] == [""];
    } else {
      assert (items + [""])[1..] == items[1..] + [""];
      JoinedSnocEmpty(items[1..], sep);
    }
  }

  /** The loop behind every "append `x + sep` for each element" in the
      core (a `StringBuilder` or a `+=` on a string). */
  method AppendEach(items: seq<string>, sep: char) returns (s: string)
    ensures s == JoinTrailing(items, sep)
  {
    s := "";
    var i := 0;
    while i < |items|
      invariant 0 <= i <= |items|
      invariant s == JoinTrailing(items[..i], sep)
    {
      assert items[..i + 1][..i] == items[..i];
      s := s + items[i] + [sep];
      i := i + 1;
    }
    assert items[..i] == items;
  }

  // ---------------------------------------------------------------------
  // Decimal digits
  // ---------------------------------------------------------------------

  predicate IsDigit(c: char) { '0' <= c <= '9' }

  predicate AllDigits(s: string) { forall k :: 0 <= k < |s| ==> IsDigit(s[k]) }

  function DigitChar(d: nat): (c: char)
    requires d < 10
    ensures IsDigit(c)
  {
    (48 + d) as char
  }

  function DigitValue(c: char): (d: nat)
    requires IsDigit(c)
    ensures d < 10 && DigitChar(d) == c
  {
    (c as int) - 48
  }

  /** The number a string of decimal digits denotes. */
  function ParseDigits(s: string): nat
    requires AllDigits(s)
  {
    if s == [] then 0
    else ParseDigits(s[..|s| - 1]) * 10 + DigitValue(s[|s| - 1])
  }

  function Pow10(w: nat): (p: nat)
    ensures p >= 1
  {
    if w == 0 then 1 else 10 * Pow10(w - 1)
  }

  /** `n` written with exactly `w` digits, zero-padded on the left (the
      custom date-format fields "yyyy", "MM", "dd", "hh", "mm", "ss"). */
  function Pad(n: nat, w: nat): (s: string)
    requires n < Pow10(w)
    ensures |s| == w && AllDigits(s)
  {
    if w == 0 then "" else Pad(n / 10, w - 1) + [DigitChar(n % 10)]
  }

  /** `n.ToString()` for a non-negative number: its shortest decimal form. */
  function NatDecimal(n: nat): (s: string)
    ensures |s| >= 1 && AllDigits(s)
  {
    if n < 10 then [DigitChar(n)] else NatDecimal(n / 10) + [DigitChar(n % 10)]
  }

  /** `n.ToString(CultureInfo.InvariantCulture)` for any Int32 value. */
  function IntDecimal(n: int): (s: string)
    ensures |s| >= 1
  {
    if n < 0 then "-" + NatDecimal(-n) else NatDecimal(n)
  }

  /** A decimal form holds only digits and the minus sign. */
  lemma {:induction false} IntDecimalSymbols(n: int)
    ensures forall k :: 0 <= k < |IntDecimal(n)| ==> IntDecimal(n)[k] == '-' || IsDigit(IntDecimal(n)[k])
  {
    var d := NatDecimal(if n < 0 then -n else n);
    assert IntDecimal(n) == (if n < 0 then "-" + d else d);
    if n < 0 {
      assert forall k :: 1 <= k < |IntDecimal(n)| ==> IntDecimal(n)[k] == d[k - 1];
    }
  }

  /** A decimal form holds no comma. */
  lemma {:induction false} IntDecimalNoComma(n: int)
    ensures ',' !in IntDecimal(n)
  {
    var d := NatDecimal(if n < 0 then -n else n);
    assert forall j :: 0 <= j < |d| ==> d[j] != ',';
    assert IntDecimal(n) == (if n < 0 then "-" + d else d);
  }

  /** Reading a padded field gives back the number written. */
  lemma {:induction false} ParsePad(n: nat, w: nat)
    requires n < Pow10(w)
    ensures ParseDigits(Pad(n, w)) == n
  {
    if w > 0 {
      var s := Pad(n, w);
      assert s[..|s| - 1] == Pad(n / 10, w - 1);
      ParsePad(n / 10, w - 1);
    }
  }

  /** Writing back the number read from `w` digits gives those digits. */
  lemma {:induction false} PadParse(s: string)
    requires AllDigits(s)
    ensures ParseDigits(s) < Pow10(|s|)
    ensures Pad(ParseDigits(s), |s|) == s
    decreases |s|
  {
    if s != [] {
      var init := s[..|s| - 1];
      PadParse(init);
      var n := ParseDigits(s);
      assert n / 10 == ParseDigits(init) && n % 10 == DigitValue(s[|s| - 1]);
      assert s == init + [s[|s| - 1]];
    }
  }

  /** Reading the decimal form of `n` gives back `n`. */
  lemma {:induction false} ParseNatDecimal(n: nat)
    ensures ParseDigits(NatDecimal(n)) == n
  {
    if n >= 10 {
      var s := NatDecimal(n);
      assert s[..|s| - 1] == NatDecimal(n / 10);
      ParseNatDecimal(n / 10);
    } else {
      assert NatDecimal(n)[..0] == "";
    }
  }

  // ---------------------------------------------------------------------
  // Case mapping and white space
  // ---------------------------------------------------------------------

  predicate IsUpperAscii(c: char) { 'A' <= c <= 'Z' }

  function LowerChar(c: char): (r: char)
    ensures !IsUpperAscii(r)
  {
    if IsUpperAscii(c) then (c as int + 32) as char else c
  }

  function UpperChar(c: char): char
  {
    if 'a' <= c <= 'z' then (c as int - 32) as char else c
  }

  /** `String.ToLower()` restricted to the ASCII letters. */
  function Lower(s: string): (r: string)
    ensures |r| == |s|
    ensures forall k :: 0 <= k < |r| ==> r[k] == LowerChar(s[k])
  {
    if s == [] then "" else [LowerChar(s[0])] + Lower(s[1..])
  }

  /** `Char.IsWhiteSpace`. */
  predicate IsWhiteSpace(c: char)
  {
    var n := c as int;
    (9 <= n <= 13) || n == 32 || n == 0x85 || n == 0xA0 || n == 0x1680 ||
    (0x2000 <= n <= 0x200A) || n == 0x2028 || n == 0x2029 || n == 0x202F ||
    n == 0x205F || n == 0x3000
  }

  /** `String.TrimStart()`: the longest suffix that does not start with
      white space; everything cut off is white space. */
  function TrimStart(s: string): (r: string)
    ensures |r| <= |s| && r == s[|s| - |r|..]
    ensures r != [] ==> !IsWhiteSpace(r[0])
    ensures forall k :: 0 <= k < |s| - |r| ==> IsWhiteSpace(s[k])
  {
    if s != [] && IsWhiteSpace(s[0]) then TrimStart(s[1..]) else s
  }

  /** `String.TrimEnd()`: the longest prefix that does not end with white
      space; everything cut off is white space. */
  function TrimEnd(s: string): (r: string)
    ensures |r| <= |s| && r == s[..|r|]
    ensures r != [] ==> !IsWhiteSpace(r[|r| - 1])
    ensures forall k :: |r| <= k < |s| ==> IsWhiteSpace(s[k])
  {
    if s != [] && IsWhiteSpace(s[|s| - 1]) then TrimEnd(s[..|s| - 1]) else s
  }

  /** `r` is the slice of `s` from `i`, with only white space before and
      after it. */
  predicate TrimmedAt(s: string, r: string, i: int)
  {
    0 <= i <= |s| - |r| && r == s[i..i + |r|] &&
    (forall k :: 0 <= k < i ==> IsWhiteSpace(s[k])) &&
    (forall k :: i + |r| <= k < |s| ==> IsWhiteSpace(s[k]))
  }

  /** `String.Trim()`: the slice of `s` left once the white space at both
      ends is cut off; it neither starts nor ends with white space, so no
      more could be cut. */
  function Trim(s: string): (r: string)
    ensures r != [] ==> !IsWhiteSpace(r[0]) && !IsWhiteSpace(r[|r| - 1])
    ensures exists i :: TrimmedAt(s, r, i)
  {
    TrimmedSlice(s, TrimStart(s), TrimEnd(TrimStart(s)));
    TrimEnd(TrimStart(s))
  }

  /** A white-space-free-ended prefix of a suffix of `s`, both cut at white
      space, is a slice of `s` with white space on either side. */
  lemma {:induction false} TrimmedSlice(s: string, t: string, r: string)
    requires |t| <= |s| && t == s[|s| - |t|..]
    requires forall k :: 0 <= k < |s| - |t| ==> IsWhiteSpace(s[k])
    requires t != [] ==> !IsWhiteSpace(t[0])
    requires |r| <= |t| && r == t[..|r|]
    requires r != [] ==> !IsWhiteSpace(r[|r| - 1])
    requires forall k :: |r| <= k < |t| ==> IsWhiteSpace(t[k])
    ensures r != [] ==> !IsWhiteSpace(r[0]) && !IsWhiteSpace(r[|r| - 1])
    ensures exists i :: TrimmedAt(s, r, i)
    ensures forall k :: 0 <= k < |r| ==> r[k] in s
  {
    var i := |s| - |t|;
    assert r == s[i..i + |r|];
    forall k | i + |r| <= k < |s|
      ensures IsWhiteSpace(s[k])
    {
      assert s[k] == t[k - i];
    }
    forall k | 0 <= k < |r|
      ensures r[k] in s
    {
      assert r[k] == s[i + k];
    }
    assert TrimmedAt(s, r, i);
  }

  /** Trimming is idempotent: a trimmed text has nothing left to cut. */
  lemma {:induction false} TrimTwice(s: string)
    ensures Trim(Trim(s)) == Trim(s)
  {
    TrimOfTrimmed(Trim(s));
  }

  /** A leading white-space character is cut by the trim. */
  lemma {:induction false} TrimLeadingWhiteSpace(s: string)
    requires s != [] && IsWhiteSpace(s[0])
    ensures Trim(s) == Trim(s[1..])
  {
    assert TrimStart(s) == TrimStart(s[1..]);
  }

  /** A text that neither starts nor ends with white space trims to itself. */
  lemma {:induction false} TrimOfTrimmed(v: string)
    requires v != [] ==> !IsWhiteSpace(v[0]) && !IsWhiteSpace(v[|v| - 1])
    ensures Trim(v) == v
  {
    assert TrimStart(v) == v;
    assert TrimEnd(v) == v;
  }
}
