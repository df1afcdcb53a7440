/** `WebEncoding`: HTML escaping of text, and reading one value out of a
    URL-encoded `key=value&...` string. `Uri.UnescapeDataString` is not
    modelled; it is passed in as `unescape`. */
module WebEncoding {
  import opened Base
  import opened Text

  // ---------------------------------------------------------------------
  // HtmlEncode
  // ---------------------------------------------------------------------

  /** What `HtmlEncode` appends for one character: an entity for the four
      markup characters, a decimal character reference above code 159, the
      character itself otherwise (the apostrophe and codes 128 to 159
      included). */
  function EncodeChar(c: char): (r: string)
    ensures |r| >= 1
  {
    if c == '<' then "&lt;"
    else if c == '>' then "&gt;"
    else if c == '"' then "&quot;"
    else if c == '&' then "&amp;"
    else if c as int > 159 then "&#" + NatDecimal(c as int) + ";"
    else [c]
  }

  /** The encoding of a whole text, character by character. */
  function HtmlEncoded(s: string): string
  {
    EachEncoded(EncodeChar, s)
  }

  /** The encodings `f` gives the characters of `s`, in order. */
  function EachEncoded(f: char -> string, s: string): string
  {
    if s == [] then "" else EachEncoded(f, s[..|s| - 1]) + f(s[|s| - 1])
  }

  /** `HtmlEncode(text)`: null stays null; otherwise the loop appends the
      encoding of each character in turn. */
  method HtmlEncode(text: Option<string>) returns (r: Option<string>)
    ensures text.None? ==> r.None?
    ensures text.Some? ==> r == Some(HtmlEncoded(text.value))
  {
    if text.None? {
      return None;
    }
    var t := text.value;
    var sb := "";
    var len := |t|;
    var i := 0;
    while i < len
      invariant 0 <= i <= len
      invariant sb == HtmlEncoded(t[..i])
    {
      assert t[..i + 1][..i] == t[..i];
      var c := t[i];
      if c == '<' {
        sb := sb + "&lt;";
      } else if c == '>' {
        sb := sb + "&gt;";
      } else if c == '"' {
        sb := sb + "&quot;";
      } else if c == '&' {
        sb := sb + "&amp;";
      } else if c as int > 159 {
        sb := sb + "&#";
        sb := sb + NatDecimal(c as int);
        sb := sb + ";";
      } else {
        sb := sb + [c];
      }
      i := i + 1;
    }
    assert t[..i] == t;
    return Some(sb);
  }

  /** The length of the run of decimal digits at the start of `s`. */
  function DigitRun(s: string): (n: nat)
    ensures n <= |s| && AllDigits(s[..n]) && (n < |s| ==> !IsDigit(s[n]))
  {
    if s == [] || !IsDigit(s[0]) then 0
    else
      var n := 1 + DigitRun(s[1..]);
      assert s[..n] == [s[0]] + s[1..][..n - 1];
      n
  }

  /** The code points a `char` can hold. */
  predicate IsCharCode(n: int)
  {
    0 <= n < 0xD800 || 0xE000 <= n < 0x11_0000
  }

  /** The character an entity at the start of `s` stands for, and the
      entity's length. */
  function DecodeEntity(s: string): (r: Option<(char, nat)>)
    ensures r.Some? ==> 0 < r.value.1 <= |s|
  {
    if |s| >= 4 && s[..4] == "&lt;" then Some(('<', 4))
    else if |s| >= 4 && s[..4] == "&gt;" then Some(('>', 4))
    else if |s| >= 6 && s[..6] == "&quot;" then Some(('"', 6))
    else if |s| >= 5 && s[..5] == "&amp;" then Some(('&', 5))
    else if |s| >= 2 && s[..2] == "&#" then
      var n := DigitRun(s[2..]);
      if n > 0 && 2 + n < |s| && s[2 + n] == ';' && IsCharCode(ParseDigits(s[2..][..n])) then
        Some((ParseDigits(s[2..][..n]) as char, n + 3))
      else None
    else None
  }

  /** HTML decoding of the entities `HtmlEncode` writes: `&lt;`, `&gt;`,
      `&quot;`, `&amp;` and `&#<digits>;`; anything else is copied. This
      is the reference the encoder is checked against. */
  function HtmlDecode(s: string): string
    decreases |s|
  {
    if s == [] then []
    else match DecodeEntity(s)
      case Some((c, n)) => [c] + HtmlDecode(s[n..])
      case None => [s[0]] + HtmlDecode(s[1..])
  }

  // ---------------------------------------------------------------------
  // Properties of HtmlEncode
  // ---------------------------------------------------------------------

  /** One character's encoding holds no `<`, `>` or `"`. */
  lemma {:induction false} EncodeCharSafe(c: char)
    ensures '<' !in EncodeChar(c) && '>' !in EncodeChar(c) && '"' !in EncodeChar(c)
  {
    if c != '<' && c != '>' && c != '"' && c != '&' && c as int > 159 {
      var d := NatDecimal(c as int);
      assert forall k :: 0 <= k < |d| ==> IsDigit(d[k]);
      assert EncodeChar(c) == "&#" + d + ";";
    }
  }

  /** Encoding a text never shortens it and leaves no `<`, `>` or `"`. */
  lemma {:induction false} HtmlEncodedSafe(s: string)
    ensures |HtmlEncoded(s)| >= |s|
    ensures '<' !in HtmlEncoded(s) && '>' !in HtmlEncoded(s) && '"' !in HtmlEncoded(s)
  {
    if s != [] {
      HtmlEncodedSafe(s[..|s| - 1]);
      EncodeCharSafe(s[|s| - 1]);
    }
  }

  /** The encoding of a text is the encoding of its first character
      followed by the encoding of the rest. */
  lemma {:induction false} HtmlEncodedCons(c: char, s: string)
    ensures HtmlEncoded([c] + s) == EncodeChar(c) + HtmlEncoded(s)
  {
    EachEncodedCons(EncodeChar, c, s);
  }

  lemma {:induction false} EachEncodedCons(f: char -> string, c: char, s: string)
    ensures EachEncoded(f, [c] + s) == f(c) + EachEncoded(f, s)
    decreases |s|
  {
    if s == [] {
      assert ([c] + s)[..0] == [];
    } else {
      var init := s[..|s| - 1];
      var last := s[|s| - 1];
      assert s == init + [last];
      assert [c] + s == ([c] + init) + [last];
      EachEncodedSnoc(f, [c] + init, last);
      EachEncodedSnoc(f, init, last);
      EachEncodedCons(f, c, init);
    }
  }

  /** Encoding one more character appends its encoding. */
  lemma {:induction false} EachEncodedSnoc(f: char -> string, s: string, c: char)
    ensures EachEncoded(f, s + [c]) == EachEncoded(f, s) + f(c)
  {
    assert (s + [c])[..|s|] == s;
  }

  /** The digits of a number stop at the first non-digit after them. */
  lemma {:induction false} DigitRunOfDigits(d: string, t: string)
    requires AllDigits(d) && t != [] && !IsDigit(t[0])
    ensures DigitRun(d + t) == |d|
    decreases |d|
  {
    var s := d + t;
    if d != [] {
      assert s[0] == d[0] && IsDigit(d[0]);
      assert s[1..] == d[1..] + t;
      DigitRunOfDigits(d[1..], t);
      assert DigitRun(s) == 1 + DigitRun(s[1..]);
    } else {
      assert s == t;
    }
  }

  /** Decoding undoes the encoding of one character. */
  lemma {:induction false} DecodeEncodeChar(c: char, rest: string)
    ensures HtmlDecode(EncodeChar(c) + rest) == [c] + HtmlDecode(rest)
  {
    var e := EncodeChar(c);
    var s := e + rest;
    if c == '<' || c == '>' || c == '"' || c == '&' {
      if c == '<' {
        DecodeLt(rest);
      } else if c == '>' {
        DecodeGt(rest);
      } else if c == '"' {
        DecodeQuot(rest);
      } else {
        DecodeAmp(rest);
      }
      assert s[|e|..] == rest;
    } else if c as int > 159 {
      DecodeNumericEntity(c, rest);
    } else {
      assert s[0] == c && s[1..] == rest;
      assert DecodeEntity(s) == None;
    }
  }

  lemma {:induction false} DecodeLt(rest: string)
    ensures DecodeEntity("&lt;" + rest) == Some(('<', 4))
  {
    assert ("&lt;" + rest)[..4] == "&lt;";
  }

  lemma {:induction false} DecodeGt(rest: string)
    ensures DecodeEntity("&gt;" + rest) == Some(('>', 4))
  {
    var s := "&gt;" + rest;
    assert s[..4] == "&gt;";
    assert s[..4][1] == 'g';
  }

  lemma {:induction false} DecodeQuot(rest: string)
    ensures DecodeEntity("&quot;" + rest) == Some(('"', 6))
  {
    var s := "&quot;" + rest;
    assert s[..6] == "&quot;";
    assert s[..4][1] == 'q';
  }

  lemma {:induction false} DecodeAmp(rest: string)
    ensures DecodeEntity("&amp;" + rest) == Some(('&', 5))
  {
    var s := "&amp;" + rest;
    assert s[..5] == "&amp;";
    assert s[..4][1] == 'a' && s[1] == 'a';
  }

  lemma {:induction false} DecodeNumericEntity(c: char, rest: string)
    requires c as int > 159
    ensures DecodeEntity("&#" + NatDecimal(c as int) + ";" + rest) ==
      Some((c, |NatDecimal(c as int)| + 3))
  {
    var d := NatDecimal(c as int);
    var s := "&#" + d + ";" + rest;
    assert s[..2] == "&#";
    assert s[1] == '#';
    assert s[2..] == d + (";" + rest);
    DigitRunOfDigits(d, ";" + rest);
    assert s[2..][..|d|] == d;
    ParseNatDecimal(c as int);
    assert s[2 + |d|] == ';';
  }

  /** Decoding gives back every encoded text. */
  lemma {:induction false} HtmlDecodeEncode(s: string)
    ensures HtmlDecode(HtmlEncoded(s)) == s
    decreases |s|
  {
    if s != [] {
      HtmlEncodedCons(s[0], s[1..]);
      assert [s[0]] + s[1..] == s;
      DecodeEncodeChar(s[0], HtmlEncoded(s[1..]));
      HtmlDecodeEncode(s[1..]);
      assert (EncodeChar(s[0]) + HtmlEncoded(s[1..]))[|EncodeChar(s[0])|..] == HtmlEncoded(s[1..]);
    }
  }

  // ---------------------------------------------------------------------
  // GetUrlEncodedKey and UrlDecode
  // ---------------------------------------------------------------------

  /** Ordinal comparison ignoring case, with the case mapping restricted
      to ASCII letters. */
  predicate EqualsIgnoreCase(a: string, b: string)
  {
    |a| == |b| && forall k :: 0 <= k < |a| ==> UpperChar(a[k]) == UpperChar(b[k])
  }

  predicate MatchesAt(s: string, pat: string, i: nat)
  {
    i + |pat| <= |s| && EqualsIgnoreCase(s[i..i + |pat|], pat)
  }

  /** The first position at or after `from` where `pat` occurs ignoring case. */
  function IndexOfIgnoreCaseFrom(s: string, pat: string, from: nat): (r: Option<nat>)
    ensures r.Some? ==> from <= r.value && r.value + |pat| <= |s|
    decreases |s| - from
  {
    if from + |pat| > |s| then None
    else if MatchesAt(s, pat, from) then Some(from)
    else IndexOfIgnoreCaseFrom(s, pat, from + 1)
  }

  /** The search finds the first match: the position found is a match,
      none lies between the start and it, and none lies anywhere when
      nothing is found. */
  lemma {:induction false} IndexOfIgnoreCaseFinds(s: string, pat: string, from: nat)
    ensures var r := IndexOfIgnoreCaseFrom(s, pat, from);
      (r.Some? ==> MatchesAt(s, pat, r.value)) &&
      (r.Some? ==> forall i :: from <= i < r.value ==> !MatchesAt(s, pat, i)) &&
      (r.None? ==> forall i :: from <= i ==> !MatchesAt(s, pat, i))
    decreases |s| - from
  {
    if from + |pat| <= |s| && !MatchesAt(s, pat, from) {
      IndexOfIgnoreCaseFinds(s, pat, from + 1);
    }
  }

  /** `s.IndexOf(pat, StringComparison.OrdinalIgnoreCase)`. */
  function IndexOfIgnoreCase(s: string, pat: string): Option<nat>
  {
    IndexOfIgnoreCaseFrom(s, pat, 0)
  }

  /** `s.IndexOf("&" as a one-character string, start)`: the first position
      at or after `start` holding `c`. */
  function IndexOfCharFrom(s: string, c: char, start: nat): (r: Option<nat>)
    ensures r.Some? ==> start <= r.value < |s| && s[r.value] == c
    decreases |s| - start
  {
    if start >= |s| then None
    else if s[start] == c then Some(start)
    else IndexOfCharFrom(s, c, start + 1)
  }

  /** The search finds the first `c`: none lies between the start and the
      position found, and none at all when nothing is found. */
  lemma {:induction false} IndexOfCharFirst(s: string, c: char, start: nat)
    ensures var r := IndexOfCharFrom(s, c, start);
      (r.Some? ==> forall i :: start <= i < r.value ==> s[i] != c) &&
      (r.None? ==> forall i :: start <= i < |s| ==> s[i] != c)
    decreases |s| - start
  {
    if start < |s| && s[start] != c {
      IndexOfCharFirst(s, c, start + 1);
    }
  }

  /** `s.Replace(from, to)` for one-character strings. */
  function Replace(s: string, from: char, to: char): (r: string)
    ensures |r| == |s|
    ensures forall k :: 0 <= k < |s| ==> r[k] == if s[k] == from then to else s[k]
  {
    if s == [] then [] else [if s[0] == from then to else s[0]] + Replace(s[1..], from, to)
  }

  /** `UrlDecode(text)`: plus signs become spaces, then the percent escapes
      are undone. */
  function UrlDecode(text: string, unescape: string -> string): (r: string)
    ensures '+' !in text ==> r == unescape(text)
  {
    ReplaceAbsent(text);
    unescape(Replace(text, '+', ' '))
  }

  /** The query as searched: enclosed in `&` on both sides. */
  function Enclosed(urlEncoded: Option<string>): string
  {
    "&" + OrEmpty(urlEncoded) + "&"
  }

  /** What the search looks for: the key between `&` and `=`. */
  function KeyPattern(key: string): string
  {
    "&" + key + "="
  }

  /** `GetUrlEncodedKey(urlEncoded, key)`. */
  function GetUrlEncodedKey(urlEncoded: Option<string>, key: Option<string>,
                            unescape: string -> string): (r: Result<string>)
    ensures r.Err? <==> key.None? && IndexOfIgnoreCase(Enclosed(urlEncoded), KeyPattern(OrEmpty(key))).Some?
    ensures r.Err? ==> r == Err(NullReference)
    ensures IndexOfIgnoreCase(Enclosed(urlEncoded), KeyPattern(OrEmpty(key))).None? ==> r == Ok("")
  {
    var text := Enclosed(urlEncoded);
    var pat := KeyPattern(OrEmpty(key));
    match IndexOfIgnoreCase(text, pat)
    case None => Ok("")
    case Some(index) =>
      if key.None? then Err(NullReference)
      else
        Ok(ValueFrom(text, index + 2 + |key.value|, unescape))
  }

  /** The decoded text from `start` up to the next `&`; empty when no `&`
      follows. */
  function ValueFrom(text: string, start: nat, unescape: string -> string): string
  {
    match IndexOfCharFrom(text, '&', start)
    case None => ""
    case Some(index2) => UrlDecode(text[start..index2], unescape)
  }

  // ---------------------------------------------------------------------
  // Properties of GetUrlEncodedKey
  // ---------------------------------------------------------------------

  /** Only `=` is equal to `=` ignoring case. */
  lemma {:induction false} UpperCharEquals(x: char)
    requires UpperChar(x) == UpperChar('=')
    ensures x == '='
  {
  }

  /** Once the key is found, the search for the following `&` always
      succeeds, because the text searched is closed by an `&` (as the
      enclosed query is, by `EnclosedByAmpersands`): the second `""`
      return is never taken. */
  lemma {:induction false} SecondEmptyReturnUnreachable(text: string, key: string, index: nat)
    requires text != [] && text[|text| - 1] == '&'
    requires IndexOfIgnoreCase(text, KeyPattern(key)) == Some(index)
    ensures IndexOfCharFrom(text, '&', index + 2 + |key|).Some?
  {
    IndexOfIgnoreCaseFinds(text, KeyPattern(key), 0);
    ClosingAmpersandFound(text, key, index);
  }

  /** The query is searched with an `&` at both ends. */
  lemma {:induction false} EnclosedByAmpersands(urlEncoded: Option<string>)
    ensures var text := Enclosed(urlEncoded);
      |text| >= 2 && text[0] == '&' && text[|text| - 1] == '&'
  {
  }

  /** After a match of `&key=` in a text that ends with `&`, an `&` follows. */
  lemma {:induction false} ClosingAmpersandFound(text: string, key: string, index: nat)
    requires text != [] && text[|text| - 1] == '&'
    requires MatchesAt(text, KeyPattern(key), index)
    ensures IndexOfCharFrom(text, '&', index + 2 + |key|).Some?
  {
    var pat := KeyPattern(key);
    var last := index + |pat| - 1;
    MatchedLast(text, pat, index);
    assert pat[|pat| - 1] == '=';
    UpperCharEquals(text[last]);
    IndexOfCharReaches(text, '&', last + 1, |text| - 1);
  }

  /** The last character of a match equals the pattern's last ignoring case. */
  lemma {:induction false} MatchedLast(s: string, pat: string, i: nat)
    requires pat != [] && MatchesAt(s, pat, i)
    ensures UpperChar(s[i + |pat| - 1]) == UpperChar(pat[|pat| - 1])
  {
    assert s[i..i + |pat|][|pat| - 1] == s[i + |pat| - 1];
  }

  /** The search for a character finds something when the character occurs
      at or after the start. */
  lemma {:induction false} IndexOfCharReaches(s: string, c: char, start: nat, j: nat)
    requires start <= j < |s| && s[j] == c
    ensures IndexOfCharFrom(s, c, start).Some?
  {
    IndexOfCharFirst(s, c, start);
  }

  /** The key is found ignoring case: keys that differ only in the case of
      ASCII letters give the same answer. */
  lemma {:induction false} KeyCaseIgnored(urlEncoded: Option<string>, k1: string, k2: string, unescape: string -> string)
    requires EqualsIgnoreCase(k1, k2)
    ensures GetUrlEncodedKey(urlEncoded, Some(k1), unescape) == GetUrlEncodedKey(urlEncoded, Some(k2), unescape)
  {
    KeySearchCaseIgnored(urlEncoded, k1, k2);
    SameSearchSameAnswer(urlEncoded, k1, k2, unescape);
  }

  lemma {:induction false} KeySearchCaseIgnored(urlEncoded: Option<string>, k1: string, k2: string)
    requires EqualsIgnoreCase(k1, k2)
    ensures var text := "&" + OrEmpty(urlEncoded) + "&";
      IndexOfIgnoreCase(text, "&" + k1 + "=") == IndexOfIgnoreCase(text, "&" + k2 + "=")
  {
    PatternCaseIgnored(k1, k2);
    SearchCaseIgnored("&" + OrEmpty(urlEncoded) + "&", "&" + k1 + "=", "&" + k2 + "=", 0);
  }

  /** Two keys of one length whose patterns are found at the same place
      read the same value. */
  lemma {:induction false} SameSearchSameAnswer(urlEncoded: Option<string>, k1: string, k2: string, unescape: string -> string)
    requires |k1| == |k2|
    requires var text := "&" + OrEmpty(urlEncoded) + "&";
      IndexOfIgnoreCase(text, "&" + k1 + "=") == IndexOfIgnoreCase(text, "&" + k2 + "=")
    ensures GetUrlEncodedKey(urlEncoded, Some(k1), unescape) == GetUrlEncodedKey(urlEncoded, Some(k2), unescape)
  {
  }

  lemma {:induction false} PatternCaseIgnored(k1: string, k2: string)
    requires EqualsIgnoreCase(k1, k2)
    ensures EqualsIgnoreCase("&" + k1 + "=", "&" + k2 + "=")
  {
    var p1 := "&" + k1 + "=";
    var p2 := "&" + k2 + "=";
    forall k | 0 <= k < |p1| ensures UpperChar(p1[k]) == UpperChar(p2[k]) {
      if 1 <= k <= |k1| {
        assert p1[k] == k1[k - 1] && p2[k] == k2[k - 1];
      }
    }
  }

  lemma {:induction false} SearchCaseIgnored(s: string, p1: string, p2: string, from: nat)
    requires EqualsIgnoreCase(p1, p2)
    ensures IndexOfIgnoreCaseFrom(s, p1, from) == IndexOfIgnoreCaseFrom(s, p2, from)
    decreases |s| - from
  {
    if from + |p1| <= |s| {
      assert MatchesAt(s, p1, from) <==> MatchesAt(s, p2, from);
      SearchCaseIgnored(s, p1, p2, from + 1);
    }
  }

  /** For a text that starts with the key's own pair, the value is that
      pair's text up to the next `&` (or the end), through `UrlDecode`. */
  lemma {:induction false} FirstPairValue(key: string, v: string, tail: string, unescape: string -> string)
    requires '&' !in v && (tail == [] || tail[0] == '&')
    ensures GetUrlEncodedKey(Some(key + "=" + v + tail), Some(key), unescape) ==
            Ok(UrlDecode(v, unescape))
  {
    var u := key + "=" + v + tail;
    FirstPairFound(key, v, tail);
    FirstPairRead(key, v, tail, unescape);
    KeyFoundValue(Some(u), key, 0, unescape);
  }

  /** The search finds the key's pattern at the very start. */
  lemma {:induction false} FirstPairFound(key: string, v: string, tail: string)
    requires '&' !in v && (tail == [] || tail[0] == '&')
    ensures IndexOfIgnoreCase(Enclosed(Some(key + "=" + v + tail)), KeyPattern(key)) == Some(0)
  {
    FirstPairLayout(key, v, tail);
    MatchesSelf(Enclosed(Some(key + "=" + v + tail)), KeyPattern(key));
  }

  /** The value read after the key's pattern is the pair's value. */
  lemma {:induction false} FirstPairRead(key: string, v: string, tail: string, unescape: string -> string)
    requires '&' !in v && (tail == [] || tail[0] == '&')
    ensures ValueFrom(Enclosed(Some(key + "=" + v + tail)), 2 + |key|, unescape) == UrlDecode(v, unescape)
  {
    var text := Enclosed(Some(key + "=" + v + tail));
    var start := 2 + |key|;
    FirstPairLayout(key, v, tail);
    IndexOfCharExact(text, '&', start, start + |v|);
    ValueOfSlice(text, start, v, unescape);
  }

  /** Once the key's pattern is found, the answer is the value read after it. */
  lemma {:induction false} KeyFoundValue(urlEncoded: Option<string>, key: string, index: nat,
                                         unescape: string -> string)
    requires IndexOfIgnoreCase(Enclosed(urlEncoded), KeyPattern(key)) == Some(index)
    ensures GetUrlEncodedKey(urlEncoded, Some(key), unescape) ==
            Ok(ValueFrom(Enclosed(urlEncoded), index + 2 + |key|, unescape))
  {
  }

  /** A value that ends at the next `&` is read whole. */
  lemma {:induction false} ValueOfSlice(text: string, start: nat, v: string, unescape: string -> string)
    requires start + |v| <= |text| && text[start..start + |v|] == v
    requires IndexOfCharFrom(text, '&', start) == Some(start + |v|)
    ensures ValueFrom(text, start, unescape) == UrlDecode(v, unescape)
  {
  }

  lemma {:induction false} FirstPairLayout(key: string, v: string, tail: string)
    requires '&' !in v && (tail == [] || tail[0] == '&')
    ensures var text := "&" + (key + "=" + v + tail) + "&";
      var start := 2 + |key|;
      |text| > start + |v| && text[..|key| + 2] == "&" + key + "=" &&
      text[start..start + |v|] == v && text[start + |v|] == '&' &&
      forall i :: start <= i < start + |v| ==> text[i] != '&'
  {
    var text := "&" + (key + "=" + v + tail) + "&";
    var start := 2 + |key|;
    assert text == ("&" + key + "=") + v + (tail + "&");
    forall i | start <= i < start + |v| ensures text[i] != '&' {
      assert text[i] == v[i - start];
    }
  }

  /** A text that starts with a pattern matches it at position 0. */
  lemma {:induction false} MatchesSelf(s: string, pat: string)
    requires |pat| <= |s| && s[..|pat|] == pat
    ensures IndexOfIgnoreCase(s, pat) == Some(0)
  {
    assert s[0..|pat|] == pat;
    assert MatchesAt(s, pat, 0);
  }

  lemma {:induction false} IndexOfCharExact(s: string, c: char, start: nat, j: nat)
    requires start <= j < |s| && s[j] == c
    requires forall i :: start <= i < j ==> s[i] != c
    ensures IndexOfCharFrom(s, c, start) == Some(j)
    decreases j - start
  {
    if start < j {
      IndexOfCharExact(s, c, start + 1, j);
    }
  }

  /** A leading pair that is not the key's own is skipped: the answer is
      the one for the rest of the query. */
  lemma {:induction false} SkipPair(p: string, rest: string, key: string, unescape: string -> string)
    requires '&' !in p
    requires !MatchesAt("&" + (p + "&" + rest) + "&", "&" + key + "=", 0)
    ensures GetUrlEncodedKey(Some(p + "&" + rest), Some(key), unescape) ==
            GetUrlEncodedKey(Some(rest), Some(key), unescape)
  {
    var a := "&" + p;
    var b := "&" + rest + "&";
    var pat := "&" + key + "=";
    assert "&" + (p + "&" + rest) + "&" == a + b;
    forall i | 1 <= i < |a| ensures a[i] != '&' {
      assert a[i] == p[i - 1];
    }
    SkipFront(a, b, pat);
    AnswerShift(p + "&" + rest, rest, a, key, unescape);
  }

  /** When the search in the longer text finds the shorter text's match,
      moved by the front part, both read the same answer. */
  lemma {:induction false} AnswerShift(u1: string, u2: string, a: string, key: string, unescape: string -> string)
    requires "&" + u1 + "&" == a + ("&" + u2 + "&")
    requires var pat := "&" + key + "=";
      IndexOfIgnoreCase(a + ("&" + u2 + "&"), pat) == ShiftedBy(|a|, IndexOfIgnoreCase("&" + u2 + "&", pat))
    ensures GetUrlEncodedKey(Some(u1), Some(key), unescape) == GetUrlEncodedKey(Some(u2), Some(key), unescape)
  {
    var b := "&" + u2 + "&";
    var pat := "&" + key + "=";
    var m := IndexOfIgnoreCase(b, pat);
    if m.Some? {
      ShiftedMatchAnswer(u1, u2, a, key, unescape, m.value);
    } else {
      NotFoundAnswer(u1, a + b, key, unescape);
      NotFoundAnswer(u2, b, key, unescape);
    }
  }

  /** Both texts find the key, the longer one moved by the front part:
      both read the same value. */
  lemma {:induction false} ShiftedMatchAnswer(u1: string, u2: string, a: string, key: string, unescape: string -> string, i: nat)
    requires "&" + u1 + "&" == a + ("&" + u2 + "&")
    requires IndexOfIgnoreCase("&" + u2 + "&", "&" + key + "=") == Some(i)
    requires IndexOfIgnoreCase("&" + u1 + "&", "&" + key + "=") == Some(|a| + i)
    ensures GetUrlEncodedKey(Some(u1), Some(key), unescape) == GetUrlEncodedKey(Some(u2), Some(key), unescape)
  {
    var b := "&" + u2 + "&";
    var start := i + 2 + |key|;
    assert IndexOfCharFrom(b, '&', start).Some? by {
      SecondEmptyReturnUnreachable(b, key, i);
    }
    assert GetUrlEncodedKey(Some(u1), Some(key), unescape) == Ok(ValueFrom(b, start, unescape)) by {
      ShiftedFoundAnswer(u1, a, b, key, unescape, i);
    }
    assert GetUrlEncodedKey(Some(u2), Some(key), unescape) == Ok(ValueFrom(b, start, unescape)) by {
      FoundAnswer(u2, b, key, unescape, i, start);
    }
  }

  /** The longer text's answer is the value read in the back part. */
  lemma {:induction false} ShiftedFoundAnswer(u1: string, a: string, b: string, key: string,
                                              unescape: string -> string, i: nat)
    requires "&" + u1 + "&" == a + b
    requires IndexOfIgnoreCase(a + b, "&" + key + "=") == Some(|a| + i)
    requires IndexOfCharFrom(b, '&', i + 2 + |key|).Some?
    ensures GetUrlEncodedKey(Some(u1), Some(key), unescape) == Ok(ValueFrom(b, i + 2 + |key|, unescape))
  {
    var start := i + 2 + |key|;
    assert ValueFrom(a + b, |a| + start, unescape) == ValueFrom(b, start, unescape) by {
      ValueFromShift(a, b, start, unescape);
    }
    assert GetUrlEncodedKey(Some(u1), Some(key), unescape) == Ok(ValueFrom(a + b, |a| + start, unescape)) by {
      FoundAnswer(u1, a + b, key, unescape, |a| + i, |a| + start);
    }
  }

  /** A match at `i`: the answer is the value after it. */
  lemma {:induction false} FoundAnswer(u: string, text: string, key: string, unescape: string -> string, i: nat, start: nat)
    requires text == "&" + u + "&" && IndexOfIgnoreCase(text, "&" + key + "=") == Some(i)
    requires start == i + 2 + |key|
    ensures GetUrlEncodedKey(Some(u), Some(key), unescape) == Ok(ValueFrom(text, start, unescape))
  {
  }

  /** No match: the answer is empty. */
  lemma {:induction false} NotFoundAnswer(u: string, text: string, key: string, unescape: string -> string)
    requires text == "&" + u + "&" && IndexOfIgnoreCase(text, "&" + key + "=").None?
    ensures GetUrlEncodedKey(Some(u), Some(key), unescape) == Ok("")
  {
  }

  /** A front part with no `&` after its first character, and no match at
      the very start, holds no match: the search finds the back part's
      match, moved by the front part's length. */
  lemma {:induction false} SkipFront(a: string, b: string, pat: string)
    requires pat != [] && pat[0] == '&'
    requires !MatchesAt(a + b, pat, 0)
    requires forall i :: 1 <= i < |a| ==> a[i] != '&'
    ensures IndexOfIgnoreCase(a + b, pat) == ShiftedBy(|a|, IndexOfIgnoreCase(b, pat))
  {
    NoMatchInFront(a, b, pat);
    SearchSkips(a + b, pat, 0, |a|);
    SearchBackPart(a, b, pat);
  }

  /** Searching from the start of the back part of a text is searching the
      back part alone, moved by the front part's length. */
  lemma {:induction false} SearchBackPart(a: string, b: string, pat: string)
    ensures IndexOfIgnoreCaseFrom(a + b, pat, |a|) == ShiftedBy(|a|, IndexOfIgnoreCase(b, pat))
  {
    SearchShift(a, b, pat, 0);
    assert |a| + 0 == |a|;
  }

  /** A pattern starting with `&` matches nowhere in a front part free of
      `&` after its first character. */
  lemma {:induction false} NoMatchInFront(a: string, b: string, pat: string)
    requires pat != [] && pat[0] == '&'
    requires !MatchesAt(a + b, pat, 0)
    requires forall i :: 1 <= i < |a| ==> a[i] != '&'
    ensures forall i :: 0 <= i < |a| ==> !MatchesAt(a + b, pat, i)
  {
    forall i | 1 <= i < |a| ensures !MatchesAt(a + b, pat, i) {
      assert (a + b)[i] == a[i];
      if MatchesAt(a + b, pat, i) {
        MatchedFirst(a + b, pat, i);
        UpperCharAmpersand((a + b)[i]);
      }
    }
  }

  /** Reading a value in the back part of a text is reading it in the back
      part alone. */
  lemma {:induction false} ValueFromShift(a: string, b: string, start: nat, unescape: string -> string)
    requires IndexOfCharFrom(b, '&', start).Some?
    ensures ValueFrom(a + b, |a| + start, unescape) == ValueFrom(b, start, unescape)
  {
    var index2 := IndexOfCharFrom(b, '&', start).value;
    var y := b[start..index2];
    assert IndexOfCharFrom(a + b, '&', |a| + start) == Some(|a| + index2) by {
      CharSearchShift(a, b, '&', start);
    }
    assert (a + b)[|a| + start..|a| + index2] == y by {
      forall k | 0 <= k < |y| ensures (a + b)[|a| + start + k] == y[k] {
      }
    }
    ValueOfSlice(a + b, |a| + start, y, unescape);
    ValueOfSlice(b, start, y, unescape);
  }

  /** The first character of a match equals the pattern's first ignoring case. */
  lemma {:induction false} MatchedFirst(s: string, pat: string, i: nat)
    requires pat != [] && MatchesAt(s, pat, i)
    ensures UpperChar(s[i]) == UpperChar(pat[0])
  {
    assert s[i..i + |pat|][0] == s[i];
  }

  /** Only `&` is equal to `&` ignoring case. */
  lemma {:induction false} UpperCharAmpersand(x: char)
    requires UpperChar(x) == UpperChar('&')
    ensures x == '&'
  {
  }

  lemma {:induction false} SearchSkips(s: string, pat: string, from: nat, stop: nat)
    requires from <= stop
    requires forall i :: from <= i < stop ==> !MatchesAt(s, pat, i)
    ensures IndexOfIgnoreCaseFrom(s, pat, from) == IndexOfIgnoreCaseFrom(s, pat, stop)
    decreases stop - from
  {
    if from < stop {
      SearchSkips(s, pat, from + 1, stop);
    }
  }

  /** A position found in the back part of a text, as a position in the
      whole text. */
  function ShiftedBy(k: nat, r: Option<nat>): Option<nat>
  {
    match r
    case None => None
    case Some(i) => Some(k + i)
  }

  /** Searching the back part of a text is searching the text from its
      start, moved by the front part's length. */
  lemma {:induction false} SearchShift(a: string, b: string, pat: string, i: nat)
    ensures IndexOfIgnoreCaseFrom(a + b, pat, |a| + i) == ShiftedBy(|a|, IndexOfIgnoreCaseFrom(b, pat, i))
    decreases |b| - i
  {
    if i + |pat| <= |b| {
      assert (a + b)[|a| + i..|a| + i + |pat|] == b[i..i + |pat|];
      if MatchesAt(b, pat, i) {
        assert MatchesAt(a + b, pat, |a| + i);
      } else {
        assert !MatchesAt(a + b, pat, |a| + i);
        SearchShift(a, b, pat, i + 1);
        assert |a| + i + 1 == |a| + (i + 1);
      }
    }
  }

  lemma {:induction false} CharSearchShift(a: string, b: string, c: char, i: nat)
    ensures IndexOfCharFrom(a + b, c, |a| + i) == ShiftedBy(|a|, IndexOfCharFrom(b, c, i))
    decreases |b| - i
  {
    if i < |b| {
      assert (a + b)[|a| + i] == b[i];
      CharSearchShift(a, b, c, i + 1);
    }
  }

  /** A pair after a leading part that is neither a pair of the key nor
      holds an `&` is read back: its value through `UrlDecode`. */
  lemma {:induction false} PairAfterPrefix(p: string, key: string, v: string, tail: string, unescape: string -> string)
    requires '&' !in p && '&' !in v && (tail == [] || tail[0] == '&')
    requires !MatchesAt("&" + (p + "&" + (key + "=" + v + tail)) + "&", "&" + key + "=", 0)
    ensures GetUrlEncodedKey(Some(p + "&" + key + "=" + v + tail), Some(key), unescape) ==
            Ok(UrlDecode(v, unescape))
  {
    assert p + "&" + key + "=" + v + tail == p + "&" + (key + "=" + v + tail);
    SkipPair(p, key + "=" + v + tail, key, unescape);
    FirstPairValue(key, v, tail, unescape);
  }

  /** A text whose second character differs ignoring case from the
      pattern's has no match at its start. */
  lemma {:induction false} SecondCharMismatch(s: string, pat: string)
    requires 2 <= |pat| && 2 <= |s| && UpperChar(s[1]) != UpperChar(pat[1])
    ensures !MatchesAt(s, pat, 0)
  {
    if |pat| <= |s| {
      assert s[0..|pat|][1] == s[1];
    }
  }

  /** Without a `+` the replacement step changes nothing. */
  lemma {:induction false} ReplaceAbsent(text: string)
    ensures '+' !in text ==> Replace(text, '+', ' ') == text
  {
  }

  /** The text handed to `UnescapeDataString` holds no `+`. */
  lemma {:induction false} UrlDecodeNoPlus(text: string)
    ensures '+' !in Replace(text, '+', ' ')
  {
  }
}
