# Pivotal Tracker client core, modelled in Dafny

This project models the logic of a C# client for the Pivotal Tracker v3
XML-over-HTTP API. It covers five parts:

- **The submission sanitizer** `PivotalService.CleanXmlForSubmission`.
  Before an entity is posted, it removes the entity's read-only child
  elements from the serialized document. It can also remove every child
  that carries an attribute (the `xsi:nil` markers of null fields) and
  then clear the root's attributes.
- **The paired fields of the domain classes.** Each pair is a wire string
  and a typed value, and the setter of each side updates the other:
  - the timestamps of stories, tasks, iterations and notes;
  - the story type and its name;
  - the comma-separated labels of stories and projects;
  - the derived `CurrentState` of a story.
- **The read-through story cache of a project.** This covers
  `FetchStories`, `FetchBugs`, `FetchChores`, `FetchFeatures` and
  `FetchReleases` with the two `PivotalFetchOptions` flags.
- **The request addresses** of story, task and iteration queries,
  including the `limit`/`offset` parameters of `FetchIterations`.
- **The string helpers:**
  - the `filter=` builders;
  - `HtmlEncode`;
  - `GetUrlEncodedKey`, together with the `+` step of `UrlDecode`;
  - the date converters `ConvertToPivotalDateTime` and
    `ConvertFromPivotalDateTime`, with `DateTime.ParseExact` over the
    pattern `yyyy/MM/dd hh:mm:ss`.

The repository has two near-identical source trees, `Domain/…` and
`PivotalTrackerAPI/Domain/…`. Each behaviour is modelled once. The table
cites the `PivotalTrackerAPI/` copy where both trees hold a file, and the
`Domain/` or `Util/` file where only that tree holds it (the task class,
the XML sanitizer, the filter helper). For these members the older copy
has the same code at these places:

- `Stories.PivotalStory.SetStoryTypeString`: `Domain/Model/PivotalStory.cs:50-72`
- `Stories.PivotalStory.SetLabels`: `Domain/Model/PivotalStory.cs:87-98`
- `Stories.PivotalStory.SetCreationDateString`: `Domain/Model/PivotalStory.cs:109-147`
- `Stories.PivotalStory.SetAcceptedDateString`: `Domain/Model/PivotalStory.cs:149-187`
- `Projects.PivotalProject.constructor`: `Domain/Model/PivotalProject.cs:27-31`
- `Projects.PivotalProject.SetLabelValues`: `Domain/Model/PivotalProject.cs:82-104`
- `Projects.PivotalProject.SetLabels`: `Domain/Model/PivotalProject.cs:44-56`
- `Projects.PivotalProject.FetchStories`: `Domain/Model/PivotalProject.cs:122-129`
- `Projects.PivotalProject.FetchBugs`: `Domain/Model/PivotalProject.cs:148-155`
- `Projects.PivotalProject.FetchChores`: `Domain/Model/PivotalProject.cs:174-181`
- `Projects.PivotalProject.FetchFeatures`: `Domain/Model/PivotalProject.cs:200-207`
- `Projects.PivotalProject.FetchReleases`: `Domain/Model/PivotalProject.cs:226-233`

## How things are modelled

- **Null and exceptions.** A C# reference that may be null is an
  `Option`. An exception that escapes to the caller is an `Err`/`Threw`
  value (`Base.Exception`), never a precondition. Examples:
  - a null text throws in a setter;
  - `Substring` rejects its arguments;
  - `Enum.Parse` fails;
  - the sanitizer dereferences a missing root.
- **Mutable objects.** The classes with paired private fields are Dafny
  classes. Their setters are methods whose `ensures` state the whole new
  state.
- **`PivotalService.GetData` and deserialization.** Together they are a
  `Stories.StoryServer` object. It records every requested address, and
  its answer is a fixed function of the address and of the number of
  earlier requests. So "how many fetches" and "which result is returned"
  can be stated exactly.
- **The XML document.** It is a root with an attribute count and a
  sequence of children `(name, attribute count, payload)`. XPath is
  reduced to the two forms the code uses:
  - `rootXpath` selects the root when it is `//name` or `//name/`;
  - `rootXpath + s` selects the first child `c` whose path
    `//root/c.name` equals it.
- **`DateTime`.**
  - It is a whole-second record for years 1 to 9999, restricted to real
    calendar dates.
  - `ToString("yyyy/MM/dd hh:mm:ss")` writes the hour as 12-hour `hh`
    with no AM/PM field.
  - `ParseExact` without a marker reads hours 1 to 12 as morning hours
    (12 is read as 0) and rejects larger ones.
  - So a round trip through the wire text returns afternoon times
    twelve hours early (`PivotalConverters.ConvertRoundTrip`).

## Model

| member | source | states |
|---|---|---|
| PivotalService.FirstSelected | Domain/Services/PivotalService.cs:126 | the node `SelectSingleNode(rootXpath + s)` finds is the first child the path selects, and no earlier child is selected; none means no child is selected |
| PivotalService.Document.ChildAt | Domain/Services/PivotalService.cs:138 | indexing the live child list past its end yields null |
| PivotalService.Document.RemoveChildAt | Domain/Services/PivotalService.cs:128 | `RemoveChild` deletes exactly the child at that position and keeps the root's attributes |
| PivotalService.Document.RemoveAllRootAttributes | Domain/Services/PivotalService.cs:146 | the root ends with no attributes and its children are unchanged |
| PivotalService.CleanXmlForSubmission | Domain/Services/PivotalService.cs:120-150 | the document ends as the specification function `Clean` says; when `Clean` fails (a missing root reached), the method throws that exception and leaves the document as it was |
| PivotalService.RemoveAttributedChildren | Domain/Services/PivotalService.cs:132-145 | the `for` loop with `i--` and `break` over the live child list leaves exactly the attribute-free children, in their original order, and keeps the root's attributes |
| PivotalService.ScanStep | Domain/Services/PivotalService.cs:136-144 | one pass of the scan either removes the child at the scan position (the live list shrinks, `i` stays) or steps over an attribute-free one |
| PivotalService.NoAttrRemovesAttributed | Domain/Services/PivotalService.cs:132-145 | no child left by the attribute scan carries an attribute |
| PivotalService.NoAttrCounts | Domain/Services/PivotalService.cs:134-145 | the scan only deletes: each attribute-free child keeps its multiplicity and each attributed one is gone |
| PivotalService.NoAttrConcat | Domain/Services/PivotalService.cs:134-145 | the scan works child by child: scanning a joined list joins the scans of the parts, so relative order is kept |
| PivotalService.NoAttrKeepsClean | Domain/Services/PivotalService.cs:132-145 | a list with no attributed child passes the scan unchanged |
| PivotalService.ExcludeAllShrinks | Domain/Services/PivotalService.cs:124-130 | the exclusion step removes at most one child per listed name and never adds any |
| PivotalService.ExcludeAllNoMatch | Domain/Services/PivotalService.cs:124-130 | when no listed path selects any child, the exclusion step changes nothing |
| PivotalService.ExcludeAllWithRoot | Domain/Services/PivotalService.cs:123-130 | when the root path finds the root, the exclusion step never fails |
| PivotalService.SlashPathSelects | Domain/Services/PivotalService.cs:126 | the path `//root/` + s selects a child exactly when the child is named s |
| PivotalService.CountNamedZero | Domain/Services/PivotalService.cs:124-130 | a count of zero children named s means no child has that name, and conversely |
| PivotalService.CountNamedRemoveAt | Domain/Services/PivotalService.cs:128 | removing one child lowers the count of its name by one and leaves the other counts |
| PivotalService.ExcludeAllCountNamed | Domain/Services/PivotalService.cs:124-130 | under a `//root/` path, excluding never increases the number of children with any name |
| PivotalService.ExcludeAllRemovesUnique | Domain/Services/PivotalService.cs:124-130 | a listed name that occurs at most once is gone after the exclusion step |
| PivotalService.CleanWithoutFlag | Domain/Services/PivotalService.cs:131-147 | with the flag off only the exclusion step runs and the root's attributes are kept |
| PivotalService.CleanWithFlag | Domain/Services/PivotalService.cs:131-147 | with the flag on and the root found, the root's attributes are cleared and the children are the attribute-free survivors of the exclusions |
| PivotalService.CleanDropsListedName | Domain/Services/PivotalService.cs:120-150 | under `//root/`, every child left is attribute-free and a listed name that occurred at most once is gone |
| PivotalService.CleanWithoutRoot | Domain/Services/PivotalService.cs:123-134 | with no root found, the call throws (a null reference) exactly when an exclusion matches or the attribute scan starts; otherwise the document is unchanged |
| PivotalService.ExcludeAllWithoutRoot | Domain/Services/PivotalService.cs:123-128 | with no root found, the exclusion step throws exactly when some listed path selects a child |
| PivotalConverters.Hour12 | PivotalTrackerAPI/Util/PivotalConverters.cs:30 | the `hh` field is 1 to 12 and agrees with the hour modulo 12 |
| PivotalConverters.Format | PivotalTrackerAPI/Util/PivotalConverters.cs:30 | the pattern rendering is nineteen characters |
| PivotalConverters.ParseExact | PivotalTrackerAPI/Util/PivotalConverters.cs:20 | a successful parse needs the exact pattern shape and yields a morning hour |
| PivotalConverters.ConvertToPivotalDateTime | PivotalTrackerAPI/Util/PivotalConverters.cs:28-31 | the wire text is 23 characters and ends in " UTC" |
| PivotalConverters.ConvertFromPivotalDateTime | PivotalTrackerAPI/Util/PivotalConverters.cs:18-21 | only 23-character texts parse; shorter than four characters throws an out-of-range error |
| PivotalConverters.WireToDateTime | PivotalTrackerAPI/Domain/Model/PivotalStory.cs:175-187 | a wire text of four characters or fewer gives `new DateTime()` |
| PivotalConverters.Morning | PivotalTrackerAPI/Util/PivotalConverters.cs:20 | the instant read back without an AM/PM field has a morning hour |
| PivotalConverters.FormatFields | PivotalTrackerAPI/Util/PivotalConverters.cs:30 | the rendering has its separators at fixed positions and digits everywhere else |
| PivotalConverters.ParseFormat | PivotalTrackerAPI/Util/PivotalConverters.cs:20-30 | parsing the rendering gives the same instant moved to the morning |
| PivotalConverters.ParsedFields | PivotalTrackerAPI/Util/PivotalConverters.cs:20 | a parsed text's fields are the numbers written in it, with the hour taken modulo 12 |
| PivotalConverters.FormatParse | PivotalTrackerAPI/Util/PivotalConverters.cs:20-30 | rendering a parsed text gives the text back, except that an hour field `00` comes back as `12` |
| PivotalConverters.ConvertRoundTrip | PivotalTrackerAPI/Util/PivotalConverters.cs:18-31 | `From(To(d))` is d moved to the morning; it equals d exactly when d's hour is before noon |
| PivotalConverters.WireRoundTrip | PivotalTrackerAPI/Util/PivotalConverters.cs:18-31 | a parsable wire text whose hour field is not `00` renders back to its first nineteen characters plus " UTC" |
| PivotalConverters.WireToDateTimeOfRendered | PivotalTrackerAPI/Domain/Model/PivotalStory.cs:175-187 | a timestamp setter given a rendered instant stores that instant moved to the morning, and the same instant exactly when it is before noon |
| PivotalConverters.ConverterMatchesInlineParse | PivotalTrackerAPI/Domain/Model/PivotalNote.cs:79-91 | the note's converter call, with exceptions caught, gives the same date as the inline `ParseExact` of the other setters |
| Enumerations.StoryTypeFromCode | PivotalTrackerAPI/Domain/Enumerations/PivotalStoryType.cs:11-29 | a cast gives a declared story type exactly for codes 0 to 3 |
| Enumerations.StoryStateFromCode | PivotalTrackerAPI/Domain/Enumerations/StoryState.cs:11-45 | a cast gives a declared state exactly for codes 0 to 7 |
| Enumerations.SameStoryTypeIsSameCast | PivotalTrackerAPI/Domain/Model/PivotalProject.cs:257 | `==` on story types compares underlying values: two types are equal exactly when their codes cast to the same value, so `(PivotalStoryType)2 == bug` |
| Enumerations.StoryTypeName | Util/PivotalFilterHelper.cs:48 | `ToString` of a story type is never empty and holds no comma |
| Enumerations.ParseInt32 | PivotalTrackerAPI/Domain/Model/PivotalStory.cs:99 | the numeric form of `Enum.Parse` yields an Int32 value, or an overflow or format error |
| Enumerations.EnumParse | PivotalTrackerAPI/Domain/Model/PivotalStory.cs:99 | null throws `ArgumentNull` and nothing else does; blank text throws `Argument`; the only exceptions are `ArgumentNull`, `Argument` and `Overflow` |
| Enumerations.IndexOfName | PivotalTrackerAPI/Domain/Model/PivotalStory.cs:99 | a found name is at the returned position; none means the piece is not a declared name |
| Enumerations.EnumParseDeclaredName | PivotalTrackerAPI/Domain/Model/PivotalStory.cs:99 | `Enum.Parse` of a declared name gives its position |
| Enumerations.BitOr | PivotalTrackerAPI/Domain/Model/PivotalStory.cs:99 | the bitwise or of two flag values is at least each of them and at most their sum |
| Enumerations.BitOrBits | PivotalTrackerAPI/Domain/Model/PivotalStory.cs:99 | each bit of the or is set exactly when it is set in either operand |
| Enumerations.StoryTypeListParse | PivotalTrackerAPI/Domain/Model/PivotalStory.cs:93-101 | `Enum.Parse` of `chore, bug` is 3, the or of 1 and 2 |
| Enumerations.NamesValue | PivotalTrackerAPI/Domain/Model/PivotalStory.cs:99 | a comma list has a value exactly when every trimmed piece is a declared name |
| Enumerations.DeclaredStoryTypeNames | PivotalTrackerAPI/Domain/Enumerations/PivotalStoryType.cs:11-29 | `ToString` of each declared story type is its declared name |
| Enumerations.StoryTypeNamesParse | PivotalTrackerAPI/Domain/Model/PivotalStory.cs:93-101 | the name of a declared story type parses back to its code, and the code casts back to the type |
| Enumerations.StoryTypeParseRejects | PivotalTrackerAPI/Domain/Model/PivotalStory.cs:93-101 | text that is neither a numeral nor a comma list of story type names makes `Enum.Parse` throw |
| Enumerations.EnumParseOfDecimal | PivotalTrackerAPI/Domain/Model/PivotalStory.cs:99 | any Int32 written in decimal parses to itself |
| Enumerations.ParseInt32OfDecimal | PivotalTrackerAPI/Domain/Model/PivotalStory.cs:99 | Int32 parsing reads back the decimal rendering of any Int32 |
| Enumerations.StoryTypeTextRoundTrip | PivotalTrackerAPI/Domain/Model/PivotalStory.cs:226-237 | the text `StoryType` writes for a canonical story type parses back to its code |
| Enumerations.EnumParseRejectsLowerCase | PivotalTrackerAPI/Domain/Enumerations/StoryState.cs:11-45 | with capitalised names, a text with no capital letter that is not a numeral fails to parse |
| Enumerations.EnumParseOfNumeral | PivotalTrackerAPI/Domain/Model/PivotalStory.cs:292 | a text that is an Int32 numeral once trimmed parses as that number |
| Enumerations.NoCapitalisedNameMatches | PivotalTrackerAPI/Domain/Model/PivotalStory.cs:288-292 | no comma-separated piece of a text without capitals matches a capitalised name |
| Enumerations.StateNamesCapitalised | PivotalTrackerAPI/Domain/Enumerations/StoryState.cs:11-45 | every `StoryState` name starts with a capital letter |
| Text.Split | PivotalTrackerAPI/Domain/Model/PivotalProject.cs:86 | `Split(',')` gives at least one piece, and exactly one when the separator does not occur |
| Text.AppendEach | PivotalTrackerAPI/Domain/Model/PivotalProject.cs:172-177 | the `StringBuilder` loop writes every element followed by the separator |
| Text.JoinedOfSplit | PivotalTrackerAPI/Domain/Model/PivotalProject.cs:77-88 | joining the pieces of a split with the separator gives the text back |
| Text.JoinTrailingOfSplit | PivotalTrackerAPI/Domain/Model/PivotalStory.cs:268-275 | the trailing-separator join of a split is the text plus one separator |
| Text.JoinTrailingIsJoinedPlusSep | PivotalTrackerAPI/Domain/Model/PivotalProject.cs:172-179 | for a non-empty list, the trailing-separator join is the plain join plus one separator, so cutting the last character gives the plain join |
| Text.SplitOfJoined | PivotalTrackerAPI/Domain/Model/PivotalProject.cs:77-88 | splitting the join of separator-free pieces gives the pieces back |
| Text.SplitOfJoinTrailing | Util/PivotalFilterHelper.cs:30-38 | splitting a trailing-separator join gives the pieces plus one empty piece |
| Text.ParseNatDecimal | PivotalTrackerAPI/Util/WebEncoding.cs:97 | reading the decimal digits of a number gives the number |
| Text.PadParse | PivotalTrackerAPI/Util/PivotalConverters.cs:20-30 | a fixed-width digit field parses to a number whose padded rendering is the field |
| Text.ParsePad | PivotalTrackerAPI/Util/PivotalConverters.cs:20-30 | parsing a padded rendering gives the number |
| Text.Lower | PivotalTrackerAPI/Domain/Model/PivotalStory.cs:288 | `ToLower` keeps the length and lowers each character |
| Text.Trim | PivotalTrackerAPI/Domain/Model/PivotalStory.cs:292 | the trim is a slice of the text with only white space cut off before and after it, and it neither starts nor ends with white space, so nothing more could be cut |
| Text.TrimTwice | PivotalTrackerAPI/Domain/Model/PivotalStory.cs:292 | trimming a trimmed text changes nothing |
| PivotalFilterHelper.ConstructFilter | Util/PivotalFilterHelper.cs:150-158 | with a null or empty base the filter starts with `filter=`; otherwise it starts with a space |
| PivotalFilterHelper.FilterPartsOfConstruct | Util/PivotalFilterHelper.cs:150-158 | a filter built on an empty base reads back as its name and value |
| PivotalFilterHelper.BuildLabelFilter | Util/PivotalFilterHelper.cs:20-23 | on a null or empty base, the filter reads back as the name `label` and the label (null as empty) |
| PivotalFilterHelper.BuildStoryTypeFilter | Util/PivotalFilterHelper.cs:46-49 | on a null or empty base, the filter reads back as the name `type` and the type's `ToString` |
| PivotalFilterHelper.BuildStateFilter | Util/PivotalFilterHelper.cs:73-76 | on a null or empty base, the filter reads back as the name `state` and the state (null as empty) |
| PivotalFilterHelper.BuildExternalIdFilter | Util/PivotalFilterHelper.cs:122-125 | on a null or empty base, the filter reads back as the name `external_id` and the id (null as empty) |
| PivotalFilterHelper.ConstructFilterDropsBase | Util/PivotalFilterHelper.cs:150-158 | any two non-empty base filters give the same result, ` name:value`: the base text is dropped |
| PivotalFilterHelper.Decimals | Util/PivotalFilterHelper.cs:60-62 | each id is written in decimal, in order |
| PivotalFilterHelper.BuildLabelListFilter | Util/PivotalFilterHelper.cs:30-38 | a null list throws; otherwise the value is every label followed by a comma |
| PivotalFilterHelper.BuildStateListFilter | Util/PivotalFilterHelper.cs:84-92 | a null list throws; otherwise the value is every state followed by a comma |
| PivotalFilterHelper.BuildIdFilter | Util/PivotalFilterHelper.cs:57-65 | a null list throws; otherwise the value is every id in decimal followed by a comma |
| PivotalFilterHelper.BuildExternalIdListFilter | Util/PivotalFilterHelper.cs:133-141 | a null list throws; otherwise the value is every id in decimal followed by a comma |
| PivotalFilterHelper.ListValueSplits | Util/PivotalFilterHelper.cs:30-38 | a list value splits back into the comma-free items plus one empty item (the trailing comma) |
| PivotalFilterHelper.IdListValueSplits | Util/PivotalFilterHelper.cs:57-65 | an id list value splits back into the decimal ids plus one empty item |
| PivotalFilterHelper.EmptyLabelList | Util/PivotalFilterHelper.cs:30-38 | an empty label list gives `filter=label:` |
| PivotalFilterHelper.StoryTypeFilterOfBug | Util/PivotalFilterHelper.cs:46-49 | the bug filter on an empty base is `filter=type:bug` |
| PivotalFilterHelper.StoryTypeFilterText | Util/PivotalFilterHelper.cs:46-49 | on an empty base, the type filter is `filter=type:` followed by the type's `ToString` |
| WebEncoding.EncodeChar | PivotalTrackerAPI/Util/WebEncoding.cs:77-102 | each character is encoded as at least one character |
| WebEncoding.HtmlEncode | PivotalTrackerAPI/Util/WebEncoding.cs:67-106 | null stays null; otherwise the loop output is the character-by-character encoding of the text |
| WebEncoding.EncodeCharSafe | PivotalTrackerAPI/Util/WebEncoding.cs:77-102 | no character's encoding contains `<`, `>` or `"` |
| WebEncoding.HtmlEncodedSafe | PivotalTrackerAPI/Util/WebEncoding.cs:67-106 | the encoding is at least as long as the text and contains no raw `<`, `>` or `"` |
| WebEncoding.HtmlDecodeEncode | PivotalTrackerAPI/Util/WebEncoding.cs:67-106 | decoding the entities `HtmlEncode` writes gives the text back, so the encoding loses nothing |
| WebEncoding.DecodeEncodeChar | PivotalTrackerAPI/Util/WebEncoding.cs:77-102 | each character's encoding decodes back to that character, whatever follows it |
| WebEncoding.DecodeNumericEntity | PivotalTrackerAPI/Util/WebEncoding.cs:93-99 | a character above code 159 is written as `&#` + decimal code + `;`, which reads back as that character |
| WebEncoding.Replace | PivotalTrackerAPI/Util/WebEncoding.cs:33 | `Replace("+", " ")` changes exactly the plus signs and keeps the length |
| WebEncoding.UrlDecodeNoPlus | PivotalTrackerAPI/Util/WebEncoding.cs:29-35 | no plus sign reaches the unescape step |
| WebEncoding.UrlDecode | PivotalTrackerAPI/Util/WebEncoding.cs:29-35 | a text with no plus sign reaches the unescape step unchanged |
| WebEncoding.GetUrlEncodedKey | PivotalTrackerAPI/Util/WebEncoding.cs:43-58 | a null reference is thrown exactly when the key is null and the pattern `&=` occurs; that is the only error; a pattern that does not occur gives the empty string |
| WebEncoding.IndexOfIgnoreCaseFrom | PivotalTrackerAPI/Util/WebEncoding.cs:47 | a found position lies at or after the start and leaves room for the whole pattern |
| WebEncoding.IndexOfIgnoreCaseFinds | PivotalTrackerAPI/Util/WebEncoding.cs:47 | the pattern matches, ignoring ASCII case, at the found position and at no earlier position from the start; no result means it matches nowhere from the start |
| WebEncoding.IndexOfCharFrom | PivotalTrackerAPI/Util/WebEncoding.cs:53 | a found position lies in the text at or after the start and holds the character searched for |
| WebEncoding.IndexOfCharFirst | PivotalTrackerAPI/Util/WebEncoding.cs:53 | no earlier position from the start holds the character; no result means no position from the start holds it |
| WebEncoding.EnclosedByAmpersands | PivotalTrackerAPI/Util/WebEncoding.cs:45 | the text searched, null or not, is at least two characters long and starts and ends with `&` |
| WebEncoding.SecondEmptyReturnUnreachable | PivotalTrackerAPI/Util/WebEncoding.cs:45-55 | once the key is found, a following `&` always exists (the one appended), so the second `""` return is dead |
| WebEncoding.KeyCaseIgnored | PivotalTrackerAPI/Util/WebEncoding.cs:43-58 | keys that differ only in ASCII case read the same value |
| WebEncoding.FirstPairValue | PivotalTrackerAPI/Util/WebEncoding.cs:43-58 | in `key=v…`, with v free of `&` and followed by `&` or the end, the key reads back as `UrlDecode(v)` |
| WebEncoding.PairAfterPrefix | PivotalTrackerAPI/Util/WebEncoding.cs:43-58 | a pair after an earlier pair whose start cannot match reads back as `UrlDecode(v)` |
| WebEncoding.SkipPair | PivotalTrackerAPI/Util/WebEncoding.cs:45-57 | a leading pair that does not match the key does not change the answer |
| WebEncoding.NotFoundAnswer | PivotalTrackerAPI/Util/WebEncoding.cs:45-49 | a key that does not occur gives the empty string |
| Stories.TrimmedLabels | PivotalTrackerAPI/Domain/Model/PivotalStory.cs:268-277 | the `LabelValues` setter cuts the trailing-comma join to one less than the previous `_labels` length; null `_labels` throws a null reference; otherwise the cut succeeds exactly when `_labels` is 1 to (join length + 1) characters long, and any other length throws `ArgumentOutOfRange` |
| Stories.CurrentStateOf | PivotalTrackerAPI/Domain/Model/PivotalStory.cs:284-299 | the state getter throws exactly on a null state text |
| Stories.PivotalStory.constructor | PivotalTrackerAPI/Domain/Model/PivotalStory.cs:24-28 | a new story has an empty label list and story type `feature` written as "feature" |
| Stories.PivotalStory.WithType | PivotalTrackerAPI/Domain/Model/PivotalStory.cs:36-41 | the three-argument constructor sets the type and its name, the name and the description, and leaves the labels null |
| Stories.PivotalStory.SetStoryType | PivotalTrackerAPI/Domain/Model/PivotalStory.cs:226-237 | the type and its name are stored together |
| Stories.PivotalStory.SetStoryTypeString | PivotalTrackerAPI/Domain/Model/PivotalStory.cs:93-101 | a text `Enum.Parse` accepts sets the type and rewrites the text as the type's name; otherwise the text is stored and the parse exception escapes |
| Stories.PivotalStory.SetLabelValues | PivotalTrackerAPI/Domain/Model/PivotalStory.cs:259-278 | a null list throws; otherwise the new labels are the trimmed join, or the cut's exception leaves everything unchanged |
| Stories.PivotalStory.SetLabels | PivotalTrackerAPI/Domain/Model/PivotalStory.cs:131-142 | a null text throws; an empty text throws out-of-range; a non-empty text s sets the list to s split on commas and the raw text to s without its last character |
| Stories.PivotalStory.SetCreationDate | PivotalTrackerAPI/Domain/Model/PivotalStory.cs:305-316 | the date and its rendering plus " UTC" are stored together |
| Stories.PivotalStory.SetCreationDateString | PivotalTrackerAPI/Domain/Model/PivotalStory.cs:165-189 | a null text throws after being stored; otherwise the date is the parsed text (or `new DateTime()` when it is short or rejected) and the text is overwritten with its rendering |
| Stories.PivotalStory.SetAcceptedDate | PivotalTrackerAPI/Domain/Model/PivotalStory.cs:242-254 | the date and its rendering plus " UTC" are stored together |
| Stories.PivotalStory.SetAcceptedDateString | PivotalTrackerAPI/Domain/Model/PivotalStory.cs:194-218 | as for the creation date, on the accepted pair |
| Stories.PivotalStory.CurrentState | PivotalTrackerAPI/Domain/Model/PivotalStory.cs:284-299 | the getter throws exactly on null text, and gives `Unknown` for every text that is not a numeral |
| Stories.StoryServer.GetStories | PivotalTrackerAPI/Domain/Model/PivotalStory.cs:356-358 | each GET is recorded, and its answer depends on the address and the number of earlier requests |
| Stories.FetchStories | PivotalTrackerAPI/Domain/Model/PivotalStory.cs:351-359 | one GET of the story list, with `&` and the filter appended only when the filter is neither null nor empty |
| Stories.NewWithLabels | PivotalTrackerAPI/Domain/Model/PivotalStory.cs:50-53 | the four-argument constructor throws on null or empty labels; otherwise the labels lose their last character |
| Stories.SanitizeForSubmission | PivotalTrackerAPI/Domain/Model/PivotalStory.cs:401-457 | add, update and delete clean the document with the five read-only names under `//story/`, with the flag on |
| Stories.LabelsLoseLastCharacter | PivotalTrackerAPI/Domain/Model/PivotalStory.cs:131-142 | after `Labels = s`, the raw labels are s without its last character, and an empty s throws |
| Stories.CutOfTrailingJoin | PivotalTrackerAPI/Domain/Model/PivotalStory.cs:268-277 | cutting a join that is s plus a comma to one less than s's length drops s's last character |
| Stories.CurrentStateUnknownUnlessNumeral | PivotalTrackerAPI/Domain/Model/PivotalStory.cs:284-299 | the state is the cast of the number for a numeral and `Unknown` for any other text, since lower-cased text never matches the capitalised names |
| Stories.LoweredTrimHasNoCapital | PivotalTrackerAPI/Domain/Model/PivotalStory.cs:288 | the lower-cased, trimmed state text has no capital letter |
| Stories.StoryTypeTextAccepted | PivotalTrackerAPI/Domain/Model/PivotalStory.cs:93-101 | the text the `StoryType` setter writes is accepted by the `StoryTypeString` setter, which gives back the same type |
| Stories.SubmissionDropsReadOnlyFields | PivotalTrackerAPI/Domain/Model/PivotalStory.cs:405 | a story document finds its root; every child left is attribute-free, and a read-only name that occurred at most once is gone |
| Tasks.PivotalTask.constructor | Domain/Model/PivotalTask.cs:25-26 | a new task has no creation text and the zero date |
| Tasks.PivotalTask.SetCreationDate | Domain/Model/PivotalTask.cs:91-103 | the date and its rendering plus " UTC" are stored together |
| Tasks.PivotalTask.SetCreationDateString | Domain/Model/PivotalTask.cs:60-84 | a null text throws after being stored; otherwise the date is the parsed text or `new DateTime()`, and the text is re-rendered from it |
| Tasks.FetchTasksUrl | Domain/Model/PivotalTask.cs:119-123 | `&` and the filter are appended only when the filter is neither null nor empty |
| Tasks.SanitizeForAdd | Domain/Model/PivotalTask.cs:145 | `AddTask` cleans with the task's exclusions under the story root path `//story/` |
| Tasks.SanitizeForUpdate | Domain/Model/PivotalTask.cs:159-204 | update and delete clean with the task's exclusions under `//task/` |
| Tasks.AddTaskAlwaysThrows | Domain/Model/PivotalTask.cs:139-149 | on a task document `//story/` finds no root, so the attribute scan dereferences null and `AddTask` always throws before sending |
| Tasks.UpdateTaskDropsReadOnlyFields | Domain/Model/PivotalTask.cs:165 | a task document finds its root under `//task/`; every child left is attribute-free and a read-only name that occurred at most once is gone |
| Iterations.PivotalIteration.constructor | PivotalTrackerAPI/Domain/Model/PivotalIteration.cs:33 | a new iteration has null texts and zero dates |
| Iterations.PivotalIteration.SetStartDate | PivotalTrackerAPI/Domain/Model/PivotalIteration.cs:120-132 | the start date and its rendering are stored together; the finish pair is untouched |
| Iterations.PivotalIteration.SetFinishDate | PivotalTrackerAPI/Domain/Model/PivotalIteration.cs:137-149 | the finish date and its rendering are stored together; the start pair is untouched |
| Iterations.PivotalIteration.SetStartDateString | PivotalTrackerAPI/Domain/Model/PivotalIteration.cs:54-78 | null, short or rejected text gives `new DateTime()` without throwing; the text is re-rendered from the date |
| Iterations.PivotalIteration.SetFinishDateString | PivotalTrackerAPI/Domain/Model/PivotalIteration.cs:83-107 | the same rule on the finish pair |
| Iterations.SetBothDateStrings | PivotalTrackerAPI/Domain/Model/PivotalIteration.cs:54-107 | after both wire setters, each text is the rendering of its date |
| Iterations.GroupSelector | PivotalTrackerAPI/Domain/Model/PivotalIteration.cs:202-204 | the selector is empty exactly for `unknown` and `all`, and otherwise is "/" plus the group's name |
| Iterations.FetchIterationsUrl | PivotalTrackerAPI/Domain/Model/PivotalIteration.cs:200-209 | the successive reassignments build the query followed by `&limit=` and `&offset=`, each only when its value is present |
| Iterations.UrlShape | PivotalTrackerAPI/Domain/Model/PivotalIteration.cs:205-209 | the unfolding of the address used by `LimitReadsBack` and `OffsetReadsBack`: the query, then the limit part, then the offset part |
| Iterations.QueryHasNoAmpersand | PivotalTrackerAPI/Domain/Model/PivotalIteration.cs:205 | a query whose token has no `&` contains no `&` |
| Iterations.DecimalIsQuerySafe | PivotalTrackerAPI/Domain/Model/PivotalIteration.cs:207-209 | a number written in decimal contains neither `&` nor `+` |
| Iterations.LimitReadsBack | PivotalTrackerAPI/Domain/Model/PivotalIteration.cs:200-209 | reading `limit` from the address with `GetUrlEncodedKey` gives the limit back, whether or not an offset follows |
| Iterations.OffsetReadsBack | PivotalTrackerAPI/Domain/Model/PivotalIteration.cs:200-209 | reading `offset` from the address gives the offset back, whether or not a limit precedes it |
| Notes.PivotalNote.constructor | PivotalTrackerAPI/Domain/Model/PivotalNote.cs:26 | a new note has no text, no author, no date text and the zero date |
| Notes.PivotalNote.WithText | PivotalTrackerAPI/Domain/Model/PivotalNote.cs:32-35 | the one-argument constructor sets only the note text |
| Notes.PivotalNote.SetNotedAtDate | PivotalTrackerAPI/Domain/Model/PivotalNote.cs:100-112 | the date and `ConvertToPivotalDateTime` of it are stored together |
| Notes.PivotalNote.SetNotedAtDateString | PivotalTrackerAPI/Domain/Model/PivotalNote.cs:69-93 | a null text throws after being stored; otherwise a short text or a converter exception gives `new DateTime()`, and the text is re-rendered |
| Notes.SanitizeForAdd | PivotalTrackerAPI/Domain/Model/PivotalNote.cs:162 | `AddNote` cleans with root path `//note`, with no closing slash |
| Notes.ExclusionPathsSelectNothing | PivotalTrackerAPI/Domain/Model/PivotalNote.cs:162 | `//note` + `id` and `//note` + `noted_at` select no child of a note |
| Notes.AddNoteKeepsListedChildren | PivotalTrackerAPI/Domain/Model/PivotalNote.cs:155-166 | `AddNote` keeps every listed child; it only drops attributed children and the root's attributes |
| Projects.OfType | PivotalTrackerAPI/Domain/Model/PivotalProject.cs:257 | `Where(x => x.StoryType == t)` keeps exactly the stories whose type has the same underlying value as t, so an undeclared cast with t's code counts as t |
| Projects.OfTypeAppend | PivotalTrackerAPI/Domain/Model/PivotalProject.cs:257 | the filter works story by story, in cache order: filtering a joined list joins the filtered parts |
| Projects.OfTypeAll | PivotalTrackerAPI/Domain/Model/PivotalProject.cs:257 | a list of stories all of type t passes the filter whole |
| Projects.OfTypeNone | PivotalTrackerAPI/Domain/Model/PivotalProject.cs:257 | a list with no story of type t gives nothing |
| Projects.PivotalProject.constructor | PivotalTrackerAPI/Domain/Model/PivotalProject.cs:39-43 | a new project has an empty label list and an empty story cache |
| Projects.PivotalProject.WithIdAndName | PivotalTrackerAPI/Domain/Model/PivotalProject.cs:50-54 | the two-argument constructor also sets the id and name |
| Projects.PivotalProject.SetLabelValues | PivotalTrackerAPI/Domain/Model/PivotalProject.cs:162-184 | a null list throws; an empty list gives raw labels `""`; otherwise the raw labels are the values joined by commas |
| Projects.PivotalProject.SetLabels | PivotalTrackerAPI/Domain/Model/PivotalProject.cs:76-88 | a null text is stored and throws; a text s gives the list s split on commas and leaves the raw labels equal to s; `""` gives the list `[""]` |
| Projects.PivotalProject.FetchStories | PivotalTrackerAPI/Domain/Model/PivotalProject.cs:226-233 | refresh+cached: one fetch, which becomes the cache and the answer; refresh only: two fetches, the first cached and the second returned; cached only: no fetch, and the cache is returned; neither: one fetch returned, cache untouched |
| Projects.PivotalProject.FetchOfType | PivotalTrackerAPI/Domain/Model/PivotalProject.cs:252-259 | for each of the four option pairs, the exact requests appended to the server's log (none, `q`, `q`+typed, typed), the new cache (an unfiltered fetch on refresh, otherwise unchanged) and the answer (the cache's stories of the type, or the typed fetch); the project's other fields are unchanged |
| Projects.PivotalProject.RefreshIfAsked | PivotalTrackerAPI/Domain/Model/PivotalProject.cs:254-255 | with `RefreshCache`, one unfiltered request is logged and its answer becomes the cache; without it, no request and the cache is untouched |
| Projects.PivotalProject.AnswerOfType | PivotalTrackerAPI/Domain/Model/PivotalProject.cs:256-258 | with `UseCachedItems`, no request and the cache's stories of the type; otherwise one request with the type filter, whose answer is returned |
| Projects.PivotalProject.FetchBugs | PivotalTrackerAPI/Domain/Model/PivotalProject.cs:252-259 | for each option pair, the requests appended to the log, the new cache and the answer: the cached answer is the cached bugs, the live answer the fetch of the last request, which ends in `&filter=type:` and the type's name (`bug` by `DeclaredStoryTypeNames`); only the cache and the server change |
| Projects.PivotalProject.FetchChores | PivotalTrackerAPI/Domain/Model/PivotalProject.cs:278-285 | the same for chores, with `&filter=type:chore` |
| Projects.PivotalProject.FetchFeatures | PivotalTrackerAPI/Domain/Model/PivotalProject.cs:304-311 | the same for features, with `&filter=type:feature` |
| Projects.PivotalProject.FetchReleases | PivotalTrackerAPI/Domain/Model/PivotalProject.cs:330-337 | the same for releases, with `&filter=type:release` |
| Projects.TypeFilterSpelling | PivotalTrackerAPI/Domain/Model/PivotalProject.cs:258 | `"&" + BuildStoryTypeFilter(t, "")` appended to a query is `&filter=type:` followed by the type's name |
| Projects.SanitizeForAdd | PivotalTrackerAPI/Domain/Model/PivotalProject.cs:398 | the sanitizing call `AddProject` makes at line 398 (never reached; see "## Left out") cleans with the project's exclusions under `//project/` |
| Projects.AddProjectDropsReadOnlyFields | PivotalTrackerAPI/Domain/Model/PivotalProject.cs:398 | the sanitizing call at line 398 would find a project document's root; every child left is attribute-free, and `id`, `labels` or `current_velocity`, when it occurred at most once, is gone |

## Left out

- HTTP transport (`GetData`, `GetDataWithCredentials`, `SubmitData`) is not modelled. Fetches go to `Stories.StoryServer`, which models the network as a function of the address and the request count. Submission stops at the sanitized document.
- XML serialization and `OuterXml` are not modelled: a document is the abstract root with its children. The value `CleanXmlForSubmission` returns (the document's text) is replaced by the cleaned document itself.
- XPath is modelled only in the two forms the code uses: a root path, and a root path plus a child name.
- `Uri.UnescapeDataString` and `Uri.EscapeDataString` are a function parameter, `unescape`.
- Only the time of day to the second and calendar-valid dates from year 1 to 9999 are modelled. Sub-second ticks, `DateTimeKind` and culture-specific calendars are not.
- Only ASCII case mapping and the listed white-space characters are modelled, in `ToLower`, `Trim` and the case-insensitive key search.
- Null elements inside a list are not modelled: lists are sequences of non-null strings.
- The reflective `UpdateStory(user)` and `UpdateTask(user, story)` are left out. They copy every public property through reflection, and `SetValue` on the get-only `CurrentState` would fail.
- `WeekStartDay` is left out because it depends on the current culture's day names. So are the created-since and modified-since filters, because they use `ToShortDateString`.
- `CalculateVelocity` is left out because it accumulates floating-point values.
- `PivotalAttachment` is left out because it calls a four-argument `SubmitData` that does not exist in the service.
- The flat data holders (person, membership, user, and the list containers) are not modelled.
- The addresses of the other endpoints are left out, apart from the story-list, task-list and iteration queries. This includes the update and delete task URLs and the `FetchProjects`/`AddProject` format strings, which reference an argument `{2}` that is never supplied, so both calls throw (see the last line below).
- `Projects.PivotalProject.FetchStories`: a cached answer returns the cache value, not the same mutable list object. Aliasing between the returned list and the cache is not modelled.
- `PivotalService.CleanXmlForSubmission`: a root path that finds no root is not a precondition. It is the error `Err(NullReference)`, raised exactly where the code dereferences the missing root.
- `PivotalConverters.Format` and `ConvertToPivotalDateTime` write and read `/` and `:` literally. .NET substitutes the current culture's date and time separators for them, so the model holds only for a culture whose separators are `/` and `:`, such as the invariant culture or en-US.
- `WebEncoding.HtmlEncode` and `WebEncoding.EncodeChar` work on Unicode scalar values, whereas a C# string is UTF-16 code units. The source writes a character outside the Basic Multilingual Plane as two entities, one per surrogate (`&#55357;&#56832;`); the model writes one (`&#128512;`). For the same reason, length-based cuts such as `Stories.TrimmedLabels` (the `Length - 1` of PivotalStory.cs:274) count scalar values. So the model never cuts a surrogate pair in half, as the source can.
- `Stories.PivotalStory.SetLabelValues` and `Projects.PivotalProject.SetLabelValues` take a sequence. The source casts its `IList<string>` to `List<string>`, which throws `InvalidCastException` for any other list type, such as a `string[]`. That failure is not modelled.
- A root path with a trailing slash (`//story/`, `//project/`) is read by its evident intent: on its own it finds the root element named, as `//story` would, although .NET XPath rejects a path that ends in `/`. The per-child paths are plain concatenation, as in the source: `//story/` + `id` names the child `id`, while `//note` + `id` gives `//noteid`, which selects nothing.
- `Projects.SanitizeForAdd` and `Projects.AddProjectDropsReadOnlyFields` model the sanitizing call at PivotalProject.cs:398 as written, but `AddProject` never reaches it. Its `String.Format("{0}/projects?token={2}", …)` at line 394 gets two arguments, so `{2}` makes .NET throw `FormatException` on every call, before the serialization and the sanitizing. A null `user` throws a null reference even earlier. `FetchProjects` (line 350) throws the same way before its request. Neither call is modelled.
