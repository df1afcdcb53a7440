/** The closed value sets of the core (story types, story states, iteration
    groups) and `Enum.Parse`/`ToString` over them. A C# enum variable can
    hold any Int32 value, declared or not; the `Undeclared…` constructors
    stand for the values with no declared name. */
module Enumerations {
  import opened Base
  import opened Text

  datatype PivotalStoryType = feature | chore | bug | release | UndeclaredStoryType(code: int)

  datatype StoryState =
    | Unknown | Unscheduled | Unstarted | Started | Finished | Delivered | Accepted | Rejected
    | UndeclaredState(code: int)

  datatype PivotalIterationGroup = unknown | all | done | current | backlog

  const StoryTypeNames: seq<string> := ["feature", "chore", "bug", "release"]

  const StoryStateNames: seq<string> :=
    ["Unknown", "Unscheduled", "Unstarted", "Started", "Finished", "Delivered", "Accepted", "Rejected"]

  const IterationGroupNames: seq<string> := ["unknown", "all", "done", "current", "backlog"]

  // ---------------------------------------------------------------------
  // Codes and names
  // ---------------------------------------------------------------------

  /** `(PivotalStoryType)n`. */
  function StoryTypeFromCode(n: int): (t: PivotalStoryType)
    ensures t.UndeclaredStoryType? <==> !(0 <= n < 4)
  {
    if n == 0 then feature else if n == 1 then chore else if n == 2 then bug
    else if n == 3 then release else UndeclaredStoryType(n)
  }

  function StoryTypeCode(t: PivotalStoryType): int
  {
    match t
    case feature => 0
    case chore => 1
    case bug => 2
    case release => 3
    case UndeclaredStoryType(n) => n
  }

  /** `a == b` on the C# enum: the underlying values are compared, so a
      cast of code 2 is the same type as `bug`. */
  predicate SameStoryType(a: PivotalStoryType, b: PivotalStoryType)
  {
    StoryTypeCode(a) == StoryTypeCode(b)
  }

  /** Casting a code and reading the code back gives the code. */
  lemma {:induction false} CodeOfCast(n: int)
    ensures StoryTypeCode(StoryTypeFromCode(n)) == n
  {
  }

  /** Two enum values are equal in C# exactly when casting their codes
      gives the same datatype value; in particular `(PivotalStoryType)2`
      equals `bug`. */
  lemma {:induction false} SameStoryTypeIsSameCast(a: PivotalStoryType, b: PivotalStoryType)
    ensures SameStoryType(a, b) <==> StoryTypeFromCode(StoryTypeCode(a)) == StoryTypeFromCode(StoryTypeCode(b))
    ensures SameStoryType(UndeclaredStoryType(2), bug)
  {
    CodeOfCast(StoryTypeCode(a));
    CodeOfCast(StoryTypeCode(b));
  }

  /** `t.ToString()`: the declared name, or the decimal code of an
      undeclared value. */
  function StoryTypeName(t: PivotalStoryType): (r: string)
    ensures r != [] && ',' !in r
  {
    var n := StoryTypeCode(t);
    IntDecimalNoComma(n);
    if 0 <= n < 4 then StoryTypeNames[n] else IntDecimal(n)
  }

  /** The declared story types print as their own names. */
  lemma {:induction false} DeclaredStoryTypeNames()
    ensures StoryTypeName(feature) == "feature" && StoryTypeName(chore) == "chore" &&
            StoryTypeName(bug) == "bug" && StoryTypeName(release) == "release"
  {
  }

  /** `(StoryState)n`. */
  function StoryStateFromCode(n: int): (s: StoryState)
    ensures s.UndeclaredState? <==> !(0 <= n < 8)
  {
    if n == 0 then Unknown else if n == 1 then Unscheduled else if n == 2 then Unstarted
    else if n == 3 then Started else if n == 4 then Finished else if n == 5 then Delivered
    else if n == 6 then Accepted else if n == 7 then Rejected else UndeclaredState(n)
  }

  /** `g.ToString()` for a declared iteration group. */
  function IterationGroupName(g: PivotalIterationGroup): string
  {
    match g
    case unknown => IterationGroupNames[0]
    case all => IterationGroupNames[1]
    case done => IterationGroupNames[2]
    case current => IterationGroupNames[3]
    case backlog => IterationGroupNames[4]
  }

  // ---------------------------------------------------------------------
  // Enum.Parse
  // ---------------------------------------------------------------------

  const Int32Min: int := -0x8000_0000
  const Int32Max: int := 0x7FFF_FFFF

  predicate IsSign(c: char) { c == '+' || c == '-' }

  /** `Int32.Parse` of text without surrounding white space: an optional
      sign and one or more ASCII digits, within the Int32 range. */
  function ParseInt32(t: string): (r: Result<int>)
    ensures r.Ok? ==> Int32Min <= r.value <= Int32Max
    ensures r.Ok? || r == Err(Overflow) || r == Err(Exception.Format)
  {
    var body := if t != [] && IsSign(t[0]) then t[1..] else t;
    if body == [] || !AllDigits(body) then Err(Exception.Format)
    else
      var n: int := if t[0] == '-' then -(ParseDigits(body) as int) else ParseDigits(body);
      if n < Int32Min || n > Int32Max then Err(Overflow) else Ok(n)
  }

  /** The index of `piece` among the declared names, compared ordinally. */
  function IndexOfName(names: seq<string>, piece: string): (r: Option<nat>)
    ensures r.Some? ==> r.value < |names| && names[r.value] == piece
    ensures r.None? ==> piece !in names
  {
    if names == [] then None
    else if names[0] == piece then Some(0)
    else match IndexOfName(names[1..], piece)
      case Some(k) => Some(k + 1)
      case None => None
  }

  /** `a | b` on the non-negative values of an enum, bit by bit from the
      lowest. */
  function BitOr(a: nat, b: nat): (r: nat)
    ensures a <= r <= a + b && b <= r
    decreases a + b
  {
    if a == 0 then b
    else if b == 0 then a
    else 2 * BitOr(a / 2, b / 2) + (if a % 2 == 1 || b % 2 == 1 then 1 else 0)
  }

  /** Bit `i` of `n`, counting from the lowest. */
  predicate Bit(n: nat, i: nat)
    decreases i
  {
    if i == 0 then n % 2 == 1 else Bit(n / 2, i - 1)
  }

  lemma {:induction false} NoBitOfZero(i: nat)
    ensures !Bit(0, i)
    decreases i
  {
    if i > 0 {
      NoBitOfZero(i - 1);
    }
  }

  lemma {:induction false} HalvedDouble(h: nat, c: nat)
    requires c < 2
    ensures (2 * h + c) / 2 == h && (2 * h + c) % 2 == c
  {
  }

  /** `BitOr` sets exactly the bits set in either operand. */
  lemma {:induction false} BitOrBits(a: nat, b: nat, i: nat)
    ensures Bit(BitOr(a, b), i) <==> Bit(a, i) || Bit(b, i)
    decreases i
  {
    if a == 0 {
      NoBitOfZero(i);
    } else if b == 0 {
      NoBitOfZero(i);
    } else {
      var c := if a % 2 == 1 || b % 2 == 1 then 1 else 0;
      var h := BitOr(a / 2, b / 2);
      assert BitOr(a, b) == 2 * h + c;
      HalvedDouble(h, c);
      if i > 0 {
        BitOrBits(a / 2, b / 2, i - 1);
      }
    }
  }

  /** The comma-separated names of a flags-style value, each trimmed and
      looked up exactly, combined with bitwise or; one unknown piece makes
      the whole text unknown. */
  function NamesValue(names: seq<string>, pieces: seq<string>): (r: Option<nat>)
    ensures r.Some? <==> forall k :: 0 <= k < |pieces| ==> Trim(pieces[k]) in names
  {
    if pieces == [] then Some(0)
    else
      match IndexOfName(names, Trim(pieces[0]))
      case None => None
      case Some(k) =>
        match NamesValue(names, pieces[1..])
        case None => None
        case Some(rest) => Some(BitOr(k, rest))
  }

  /** `Enum.Parse(typeof(E), value)` (case-sensitive) for an enum whose
      declared names are `names`, valued 0, 1, 2, ... in order. */
  function EnumParse(names: seq<string>, value: Option<string>): (r: Result<int>)
    ensures value.None? <==> r == Err(ArgumentNull)
    ensures value.Some? && Trim(value.value) == [] ==> r == Err(Argument)
    ensures r.Err? ==> r.error == ArgumentNull || r.error == Argument || r.error == Overflow
  {
    match value
    case None => Err(ArgumentNull)
    case Some(v) =>
      var t := Trim(v);
      if t == [] then Err(Argument)
      else
        var numeric := if IsDigit(t[0]) || IsSign(t[0]) then ParseInt32(t) else Err(Exception.Format);
        if numeric.Ok? || numeric == Err(Overflow) then numeric
        else
          match NamesValue(names, Split(t, ','))
          case Some(n) => Ok(n)
          case None => Err(Argument)
  }

  /** The text is a number `Enum.Parse` accepts outright. */
  predicate IsInt32Numeral(t: string)
  {
    t != [] && (IsDigit(t[0]) || IsSign(t[0])) && ParseInt32(t).Ok?
  }

  // ---------------------------------------------------------------------
  // Properties
  // ---------------------------------------------------------------------

  /** Every piece of a split text is made of characters of that text. */
  lemma {:induction false} SplitPiecesFromText(s: string, sep: char, k: nat, c: char)
    requires k < |Split(s, sep)| && c in Split(s, sep)[k]
    ensures c in s
    decreases |s|
  {
    if s != [] {
      var rest := Split(s[1..], sep);
      if s[0] == sep {
        if k > 0 { SplitPiecesFromText(s[1..], sep, k - 1, c); }
      } else if k == 0 {
        if c != s[0] { SplitPiecesFromText(s[1..], sep, 0, c); }
      } else {
        SplitPiecesFromText(s[1..], sep, k, c);
      }
    }
  }

  /** No piece of text without upper-case ASCII letters is a name that
      starts with one. */
  lemma {:induction false} NoCapitalisedNameMatches(names: seq<string>, pieces: seq<string>, text: string)
    requires pieces == Split(text, ',') && pieces != []
    requires forall k :: 0 <= k < |names| ==> names[k] != [] && IsUpperAscii(names[k][0])
    requires forall k :: 0 <= k < |text| ==> !IsUpperAscii(text[k])
    ensures NamesValue(names, pieces) == None
  {
    var p := Trim(pieces[0]);
    if p in names {
      var k :| 0 <= k < |names| && names[k] == p;
      assert p[0] in pieces[0];
      SplitPiecesFromText(text, ',', 0, p[0]);
      assert false;
    }
  }

  /** A comma list of story-type names parses to the or of their values:
      `chore, bug` is 1 | 2, the value of `release`. */
  lemma {:induction false} StoryTypeListParse()
    ensures EnumParse(StoryTypeNames, Some("chore, bug")) == Ok(3)
  {
    assert NamesValue(StoryTypeNames, ["chore", " bug"]) == Some(BitOr(1, 2)) by {
      StoryTypeNamesAreNames();
      IndexOfDistinct(StoryTypeNames, 1);
      IndexOfDistinct(StoryTypeNames, 2);
      TrimOfTrimmed(StoryTypeNames[1]);
      TrimSpaceBug();
      NamesValuePair(StoryTypeNames, "chore", " bug", 1, 2);
    }
    assert EnumParse(StoryTypeNames, Some("chore, bug")) == Ok(BitOr(1, 2)) by {
      ChoreBugShape("chore, bug");
      EnumParseOfNameList(StoryTypeNames, "chore, bug", ["chore", " bug"]);
    }
    assert BitOr(1, 2) == 3;
  }

  /** The text `chore, bug` is its own trim, starts with a letter and
      splits into `chore` and ` bug`. */
  lemma {:induction false} ChoreBugShape(v: string)
    requires v == "chore, bug"
    ensures v != [] && Trim(v) == v && !IsDigit(v[0]) && !IsSign(v[0]) && Split(v, ',') == ["chore", " bug"]
  {
    assert Split(v, ',') == ["chore", " bug"] by {
      ChoreBugJoined();
      SplitAfterSep("chore", " bug", ',');
      SplitNoSep(" bug", ',');
    }
    assert v[0] == 'c';
    assert Trim(v) == v by {
      TrimOfTrimmed(v);
    }
  }

  lemma {:induction false} ChoreBugJoined()
    ensures "chore, bug" == "chore" + [','] + " bug"
    ensures ',' !in "chore" && ',' !in " bug"
  {
  }

  lemma {:induction false} TrimSpaceBug()
    ensures Trim(" bug") == "bug" == StoryTypeNames[2]
  {
    TrimLeadingWhiteSpace(" bug");
    assert " bug"[1..] == "bug";
    TrimOfTrimmed("bug");
  }

  /** Two pieces that trim to declared names have the or of their indexes. */
  lemma {:induction false} NamesValuePair(names: seq<string>, p: string, q: string, i: nat, j: nat)
    requires i < |names| && j < |names|
    requires Trim(p) == names[i] && IndexOfName(names, names[i]) == Some(i)
    requires Trim(q) == names[j] && IndexOfName(names, names[j]) == Some(j)
    ensures NamesValue(names, [p, q]) == Some(BitOr(i, j))
  {
    assert NamesValue(names, [q]) == Some(j) by {
      assert [q][1..] == [];
      assert BitOr(j, 0) == j;
    }
    assert [p, q][1..] == [q];
  }

  /** A text that is its own trim and does not start like a number is
      parsed as a comma list of names. */
  lemma {:induction false} EnumParseOfNameList(names: seq<string>, v: string, pieces: seq<string>)
    requires v != [] && Trim(v) == v && !IsDigit(v[0]) && !IsSign(v[0]) && Split(v, ',') == pieces
    ensures EnumParse(names, Some(v)) == match NamesValue(names, pieces)
                                         case Some(n) => Ok(n)
                                         case None => Err(Argument)
  {
  }

  /** A single declared name, as the only piece, has its own index. */
  lemma {:induction false} NamesValueSingle(names: seq<string>, k: nat)
    requires k < |names| && Trim(names[k]) == names[k]
    requires IndexOfName(names, names[k]) == Some(k)
    ensures NamesValue(names, [names[k]]) == Some(k)
  {
    var pieces := [names[k]];
    assert pieces[0] == names[k] && pieces[1..] == [];
    assert NamesValue(names, pieces[1..]) == Some(0);
    assert BitOr(k, 0) == k;
  }

  /** `Enum.Parse` returns the index of a declared name given exactly, for
      names that are distinct, free of white space and commas, and that do
      not start like a number. */
  lemma {:induction false} EnumParseDeclaredName(names: seq<string>, k: nat)
    requires k < |names|
    requires forall i, j :: 0 <= i < j < |names| ==> names[i] != names[j]
    requires forall i :: 0 <= i < |names| ==> NameLike(names[i])
    ensures EnumParse(names, Some(names[k])) == Ok(k)
  {
    var v := names[k];
    assert NameLike(v);
    TrimOfTrimmed(v);
    SplitNoSep(v, ',');
    IndexOfDistinct(names, k);
    NamesValueSingle(names, k);
  }

  /** A declared name: non-empty, no comma, no white space at either end,
      and not starting like a number. */
  predicate NameLike(v: string)
  {
    v != [] && !IsDigit(v[0]) && !IsSign(v[0]) && ',' !in v &&
    !IsWhiteSpace(v[0]) && !IsWhiteSpace(v[|v| - 1])
  }

  lemma {:induction false} IndexOfDistinct(names: seq<string>, k: nat)
    requires k < |names|
    requires forall i, j :: 0 <= i < j < |names| ==> names[i] != names[j]
    ensures IndexOfName(names, names[k]) == Some(k)
  {
    if k > 0 {
      assert names[0] != names[k];
      assert names[1..][k - 1] == names[k];
      IndexOfDistinct(names[1..], k - 1);
    }
  }

  /** The four story-type names parse to their own values. */
  lemma {:induction false} StoryTypeNamesParse(t: PivotalStoryType)
    requires !t.UndeclaredStoryType?
    ensures EnumParse(StoryTypeNames, Some(StoryTypeName(t))) == Ok(StoryTypeCode(t))
    ensures StoryTypeFromCode(StoryTypeCode(t)) == t
  {
    var k := StoryTypeCode(t);
    assert 0 <= k < 4 && StoryTypeName(t) == StoryTypeNames[k];
    DeclaredCast(t);
    StoryTypeNamesAreNames();
    EnumParseDeclaredName(StoryTypeNames, k);
  }

  lemma {:induction false} DeclaredCast(t: PivotalStoryType)
    requires !t.UndeclaredStoryType?
    ensures StoryTypeFromCode(StoryTypeCode(t)) == t
  {
  }

  /** The story-type names are distinct and each is shaped like a name. */
  lemma {:induction false} StoryTypeNamesAreNames()
    ensures forall i, j :: 0 <= i < j < |StoryTypeNames| ==> StoryTypeNames[i] != StoryTypeNames[j]
    ensures forall i :: 0 <= i < |StoryTypeNames| ==> NameLike(StoryTypeNames[i])
  {
    assert NameLike("feature") && NameLike("chore") && NameLike("bug") && NameLike("release");
  }

  /** Text that is neither an Int32 numeral nor a comma list of declared
      story-type names makes `Enum.Parse` throw. */
  lemma {:induction false} StoryTypeParseRejects(v: string)
    requires var t := Trim(v); !IsInt32Numeral(t) && NamesValue(StoryTypeNames, Split(t, ',')).None?
    ensures EnumParse(StoryTypeNames, Some(v)).Err?
  {
  }

  /** `Enum.Parse` reads the decimal form of any Int32 value back as that
      value, declared or not. */
  lemma {:induction false} EnumParseOfDecimal(names: seq<string>, n: int)
    requires Int32Min <= n <= Int32Max
    ensures EnumParse(names, Some(IntDecimal(n))) == Ok(n)
  {
    var d := IntDecimal(n);
    DecimalShape(n);
    TrimOfTrimmed(d);
    ParseInt32OfDecimal(n);
  }

  /** The decimal form starts with a digit or a minus sign and ends with a
      digit. */
  lemma {:induction false} DecimalShape(n: int)
    ensures var d := IntDecimal(n);
      (IsDigit(d[0]) || d[0] == '-') && IsDigit(d[|d| - 1]) &&
      !IsWhiteSpace(d[0]) && !IsWhiteSpace(d[|d| - 1])
  {
    var body := NatDecimal(if n < 0 then -n else n);
    assert IsDigit(body[0]) && IsDigit(body[|body| - 1]);
    assert IntDecimal(n)[|IntDecimal(n)| - 1] == body[|body| - 1];
  }

  /** `Int32.Parse` reads the decimal form of an Int32 value back. */
  lemma {:induction false} ParseInt32OfDecimal(n: int)
    requires Int32Min <= n <= Int32Max
    ensures ParseInt32(IntDecimal(n)) == Ok(n)
  {
    var d := IntDecimal(n);
    var m := if n < 0 then -n else n;
    ParseNatDecimal(m);
    if n < 0 {
      assert d[1..] == NatDecimal(m);
    } else {
      assert !IsSign(d[0]);
    }
  }

  /** A story type is canonical when it is what its own code converts to:
      the four declared values, and the undeclared Int32 codes outside 0 to 3. */
  predicate CanonicalStoryType(t: PivotalStoryType)
  {
    StoryTypeFromCode(StoryTypeCode(t)) == t && Int32Min <= StoryTypeCode(t) <= Int32Max
  }

  /** The text `t.ToString()` writes parses back to `t`. */
  lemma {:induction false} StoryTypeTextRoundTrip(t: PivotalStoryType)
    requires CanonicalStoryType(t)
    ensures EnumParse(StoryTypeNames, Some(StoryTypeName(t))) == Ok(StoryTypeCode(t))
  {
    if t.UndeclaredStoryType? {
      EnumParseOfDecimal(StoryTypeNames, StoryTypeCode(t));
    } else {
      StoryTypeNamesParse(t);
    }
  }

  /** Against names that all start with a capital, text without capitals
      is rejected unless it is an Int32 numeral. */
  lemma {:induction false} EnumParseRejectsLowerCase(names: seq<string>, v: string)
    requires forall k :: 0 <= k < |names| ==> names[k] != [] && IsUpperAscii(names[k][0])
    requires forall k :: 0 <= k < |Trim(v)| ==> !IsUpperAscii(Trim(v)[k])
    requires !IsInt32Numeral(Trim(v))
    ensures EnumParse(names, Some(v)).Err?
  {
    var t := Trim(v);
    if t != [] {
      NoCapitalisedNameMatches(names, Split(t, ','), t);
    }
  }

  /** An Int32 numeral parses as that number, whatever the names. */
  lemma {:induction false} EnumParseOfNumeral(names: seq<string>, v: string)
    requires IsInt32Numeral(Trim(v))
    ensures EnumParse(names, Some(v)) == ParseInt32(Trim(v))
  {
  }

  /** Every story-state name starts with a capital. */
  lemma {:induction false} StateNamesCapitalised()
    ensures forall k :: 0 <= k < |StoryStateNames| ==>
      StoryStateNames[k] != [] && IsUpperAscii(StoryStateNames[k][0])
  {
  }
}
