/** `PivotalIteration`: the start and finish timestamps of an iteration,
    each a raw/typed pair whose raw setter tolerates null, and the request
    address of `FetchIterations` with its optional group, limit and offset. */
module Iterations {
  import opened Base
  import opened Text
  import opened PivotalConverters
  import opened Enumerations
  import PivotalService
  import WebEncoding

  class PivotalIteration {
    var startDateString: Option<string>
    var startDate: DateTime
    var finishDateString: Option<string>
    var finishDate: DateTime

    /** `new PivotalIteration()`: no field is assigned. */
    constructor ()
      ensures startDateString == None && startDate == Zero
      ensures finishDateString == None && finishDate == Zero
    {
      startDateString := None;
      startDate := Zero;
      finishDateString := None;
      finishDate := Zero;
    }

    /** Each raw timestamp is the wire rendering of its typed value. */
    predicate Synced()
      reads this
    {
      startDateString == Some(ConvertToPivotalDateTime(startDate)) &&
      finishDateString == Some(ConvertToPivotalDateTime(finishDate))
    }

    /** The `StartDate` setter. */
    method SetStartDate(d: DateTime)
      modifies this
      ensures startDate == d && startDateString == Some(ConvertToPivotalDateTime(d))
      ensures finishDate == old(finishDate) && finishDateString == old(finishDateString)
    {
      startDate := d;
      startDateString := Some(PivotalConverters.Format(d) + " UTC");
    }

    /** The `FinishDate` setter. */
    method SetFinishDate(d: DateTime)
      modifies this
      ensures finishDate == d && finishDateString == Some(ConvertToPivotalDateTime(d))
      ensures startDate == old(startDate) && startDateString == old(startDateString)
    {
      finishDate := d;
      finishDateString := Some(PivotalConverters.Format(d) + " UTC");
    }

    /** The `StartDateString` setter: a null or short text, or one whose
        prefix does not parse, gives `new DateTime()`; nothing throws, and
        the stored text is replaced by the typed value's rendering. */
    method SetStartDateString(value: Option<string>)
      modifies this
      ensures startDate == (if value.None? then Zero else WireToDateTime(value.value))
      ensures startDateString == Some(ConvertToPivotalDateTime(startDate))
      ensures finishDate == old(finishDate) && finishDateString == old(finishDateString)
    {
      startDateString := value;
      if value.Some? && |value.value| > 4 {
        var v := value.value;
        var parsed := ParseExact(v[..|v| - 4]);
        if parsed.Some? {
          SetStartDate(parsed.value);
        } else {
          SetStartDate(Zero);
        }
      } else {
        SetStartDate(Zero);
      }
    }

    /** The `FinishDateString` setter, the same rule as the start's. */
    method SetFinishDateString(value: Option<string>)
      modifies this
      ensures finishDate == (if value.None? then Zero else WireToDateTime(value.value))
      ensures finishDateString == Some(ConvertToPivotalDateTime(finishDate))
      ensures startDate == old(startDate) && startDateString == old(startDateString)
    {
      finishDateString := value;
      if value.Some? && |value.value| > 4 {
        var v := value.value;
        var parsed := ParseExact(v[..|v| - 4]);
        if parsed.Some? {
          SetFinishDate(parsed.value);
        } else {
          SetFinishDate(Zero);
        }
      } else {
        SetFinishDate(Zero);
      }
    }
  }

  /** Setting both raw timestamps leaves the iteration synced, whatever
      the texts were. */
  method SetBothDateStrings(it: PivotalIteration, start: Option<string>, finish: Option<string>)
    modifies it
    ensures it.Synced()
    ensures it.startDate == (if start.None? then Zero else WireToDateTime(start.value))
    ensures it.finishDate == (if finish.None? then Zero else WireToDateTime(finish.value))
  {
    it.SetStartDateString(start);
    it.SetFinishDateString(finish);
  }

  // ---------------------------------------------------------------------
  // FetchIterations
  // ---------------------------------------------------------------------

  /** The group part of the address: empty for `unknown` and `all`,
      otherwise `/` and the group's name. */
  function GroupSelector(g: PivotalIterationGroup): (s: string)
    ensures s == "" <==> g == unknown || g == all
    ensures s != "" ==> s == "/" + IterationGroupName(g)
  {
    if g != unknown && g != all then "/" + IterationGroupName(g) else ""
  }

  /** The address before the limit and offset. */
  function IterationsQuery(projectId: int, g: PivotalIterationGroup, token: Option<string>): string
  {
    PivotalService.BaseUrl + "/projects/" + IntDecimal(projectId) + "/iterations" + GroupSelector(g) +
    "?token=" + OrEmpty(token)
  }

  /** The request address of `FetchIterations`: `&limit=` and then
      `&offset=` are appended only when the value is present. */
  method FetchIterationsUrl(projectId: int, g: PivotalIterationGroup, token: Option<string>,
                            limit: Option<int>, offset: Option<int>) returns (url: string)
    ensures url == IterationsUrl(projectId, g, token, limit, offset)
  {
    var groupSelector := "";
    if g != unknown && g != all {
      groupSelector := "/" + IterationGroupName(g);
    }
    url := PivotalService.BaseUrl + "/projects/" + IntDecimal(projectId) + "/iterations" + groupSelector +
           "?token=" + OrEmpty(token);
    ghost var query := url;
    assert query == IterationsQuery(projectId, g, token);
    var limitPart := "";
    if limit.Some? {
      limitPart := "&limit=" + IntDecimal(limit.value);
      url := url + limitPart;
    }
    assert url == query + limitPart;
    var offsetPart := "";
    if offset.Some? {
      offsetPart := "&offset=" + IntDecimal(offset.value);
      url := url + offsetPart;
    }
    assert url == query + limitPart + offsetPart;
  }

  /** The address as a function of its inputs: the query, then each
      present value as its own pair. */
  function IterationsUrl(projectId: int, g: PivotalIterationGroup, token: Option<string>,
                         limit: Option<int>, offset: Option<int>): string
  {
    IterationsQuery(projectId, g, token) +
    (if limit.Some? then "&limit=" + IntDecimal(limit.value) else "") +
    (if offset.Some? then "&offset=" + IntDecimal(offset.value) else "")
  }

  // ---------------------------------------------------------------------
  // Properties
  // ---------------------------------------------------------------------

  /** A decimal number holds neither `&` nor `+`. */
  lemma {:induction false} DecimalIsQuerySafe(n: int)
    ensures '&' !in IntDecimal(n) && '+' !in IntDecimal(n)
  {
    IntDecimalSymbols(n);
  }

  /** Without an `&` in the token, the address before the limit holds
      none either. */
  lemma {:induction false} QueryHasNoAmpersand(projectId: int, g: PivotalIterationGroup, token: Option<string>)
    requires '&' !in OrEmpty(token)
    ensures '&' !in IterationsQuery(projectId, g, token)
  {
    DecimalIsQuerySafe(projectId);
    assert '&' !in IterationGroupName(g);
    assert '&' !in GroupSelector(g);
    PivotalService.BaseUrlWithoutAmpersand();
    QueryPartsWithoutAmpersand(PivotalService.BaseUrl, IntDecimal(projectId), GroupSelector(g), OrEmpty(token));
  }

  /** The address assembled from parts without `&` holds none. */
  lemma {:induction false} QueryPartsWithoutAmpersand(base: string, id: string, selector: string, token: string)
    requires '&' !in base && '&' !in id && '&' !in selector && '&' !in token
    ensures '&' !in base + "/projects/" + id + "/iterations" + selector + "?token=" + token
  {
    var p1 := base + "/projects/";
    AbsentFromConcat(base, "/projects/", '&');
    var p2 := p1 + id;
    AbsentFromConcat(p1, id, '&');
    var p3 := p2 + "/iterations";
    AbsentFromConcat(p2, "/iterations", '&');
    var p4 := p3 + selector;
    AbsentFromConcat(p3, selector, '&');
    var p5 := p4 + "?token=";
    AbsentFromConcat(p4, "?token=", '&');
    AbsentFromConcat(p5, token, '&');
  }

  lemma {:induction false} AbsentFromConcat(a: string, b: string, c: char)
    requires c !in a && c !in b
    ensures c !in a + b
  {
  }

  /** The address starts with the service's scheme. */
  lemma {:induction false} QueryStartsWithScheme(projectId: int, g: PivotalIterationGroup, token: Option<string>)
    ensures |IterationsQuery(projectId, g, token)| > 0 && IterationsQuery(projectId, g, token)[0] == 'h'
  {
    var p0 := PivotalService.BaseUrl;
    assert p0[0] == 'h';
    var p1 := p0 + "/projects/";
    HeadOfConcat(p0, "/projects/");
    var p2 := p1 + IntDecimal(projectId);
    HeadOfConcat(p1, IntDecimal(projectId));
    var p3 := p2 + "/iterations";
    HeadOfConcat(p2, "/iterations");
    var p4 := p3 + GroupSelector(g);
    HeadOfConcat(p3, GroupSelector(g));
    var p5 := p4 + "?token=";
    HeadOfConcat(p4, "?token=");
    HeadOfConcat(p5, OrEmpty(token));
    assert IterationsQuery(projectId, g, token) == p5 + OrEmpty(token);
  }

  lemma {:induction false} HeadOfConcat(a: string, b: string)
    requires |a| > 0
    ensures (a + b)[0] == a[0]
  {
  }

  /** The limit pair after a query without `&`: read back through the
      unescaping step, which the decimal form passes unchanged. */
  lemma {:induction false} LimitPairReadsBack(q: string, l: string, tail: string, unescape: string -> string)
    requires '&' !in q && |q| > 0 && q[0] == 'h'
    requires '&' !in l && '+' !in l && (tail == [] || tail[0] == '&')
    ensures WebEncoding.GetUrlEncodedKey(Some(q + "&" + "limit" + "=" + l + tail), Some("limit"), unescape) ==
            Ok(unescape(l))
  {
    var text := "&" + (q + "&" + ("limit" + "=" + l + tail)) + "&";
    assert text[1] == q[0];
    WebEncoding.SecondCharMismatch(text, "&limit=");
    WebEncoding.PairAfterPrefix(q, "limit", l, tail, unescape);
    WebEncoding.ReplaceAbsent(l);
  }

  /** The offset pair right after a query without `&`. */
  lemma {:induction false} OffsetPairAfterQuery(q: string, o: string, unescape: string -> string)
    requires '&' !in q && |q| > 0 && UpperChar(q[0]) != UpperChar('o')
    requires '&' !in o && '+' !in o
    ensures WebEncoding.GetUrlEncodedKey(Some(q + "&" + "offset" + "=" + o + ""), Some("offset"), unescape) ==
            Ok(unescape(o))
  {
    var text := "&" + (q + "&" + ("offset" + "=" + o + "")) + "&";
    assert text[1] == q[0];
    WebEncoding.SecondCharMismatch(text, "&offset=");
    WebEncoding.PairAfterPrefix(q, "offset", o, "", unescape);
    WebEncoding.ReplaceAbsent(o);
  }

  /** The offset pair after a query and a limit pair. */
  lemma {:induction false} OffsetPairAfterLimit(q: string, p: string, o: string, unescape: string -> string)
    requires '&' !in q && |q| > 0 && q[0] == 'h'
    requires '&' !in p && |p| > 0 && p[0] == 'l' && '&' !in o && '+' !in o
    ensures WebEncoding.GetUrlEncodedKey(Some(q + "&" + (p + "&" + "offset" + "=" + o + "")), Some("offset"), unescape) ==
            Ok(unescape(o))
  {
    var rest := p + "&" + "offset" + "=" + o + "";
    var text1 := "&" + (q + "&" + rest) + "&";
    assert text1[1] == q[0];
    WebEncoding.SecondCharMismatch(text1, "&offset=");
    WebEncoding.SkipPair(q, rest, "offset", unescape);
    OffsetPairAfterQuery(p, o, unescape);
  }

  lemma {:induction false} LimitSpelling(q: string, l: string, tail: string)
    ensures q + ("&limit=" + l) + tail == q + "&" + "limit" + "=" + l + tail
  {
  }

  lemma {:induction false} OffsetSpelling(q: string, o: string)
    ensures q + ("&offset=" + o) == q + "&" + "offset" + "=" + o + ""
  {
  }

  lemma {:induction false} OffsetAfterLimitSpelling(q: string, l: string, o: string)
    ensures q + ("&limit=" + l) + ("&offset=" + o) == q + "&" + (("limit=" + l) + "&" + "offset" + "=" + o + "")
  {
  }

  /** The address is the query followed by the pairs present. */
  lemma {:induction false} UrlShape(projectId: int, g: PivotalIterationGroup, token: Option<string>,
                 limit: Option<int>, offset: Option<int>)
    ensures var lp := if limit.Some? then "&limit=" + IntDecimal(limit.value) else "";
      var op := if offset.Some? then "&offset=" + IntDecimal(offset.value) else "";
      IterationsUrl(projectId, g, token, limit, offset) == IterationsQuery(projectId, g, token) + lp + op
  {
  }

  /** The limit written into the address is read back by
      `GetUrlEncodedKey`, whether an offset follows or not. */
  lemma {:induction false} LimitReadsBack(projectId: int, g: PivotalIterationGroup, token: Option<string>,
                       limit: int, offset: Option<int>, unescape: string -> string)
    requires '&' !in OrEmpty(token)
    ensures WebEncoding.GetUrlEncodedKey(Some(IterationsUrl(projectId, g, token, Some(limit), offset)),
                                         Some("limit"), unescape) == Ok(unescape(IntDecimal(limit)))
  {
    var q := IterationsQuery(projectId, g, token);
    var tail := if offset.Some? then "&offset=" + IntDecimal(offset.value) else "";
    QueryHasNoAmpersand(projectId, g, token);
    QueryStartsWithScheme(projectId, g, token);
    DecimalIsQuerySafe(limit);
    UrlShape(projectId, g, token, Some(limit), offset);
    LimitPairReadsBack(q, IntDecimal(limit), tail, unescape);
    LimitSpelling(q, IntDecimal(limit), tail);
  }

  /** The offset written into the address is read back by
      `GetUrlEncodedKey`, whether a limit comes before it or not. */
  lemma {:induction false} OffsetReadsBack(projectId: int, g: PivotalIterationGroup, token: Option<string>,
                        limit: Option<int>, offset: int, unescape: string -> string)
    requires '&' !in OrEmpty(token)
    ensures WebEncoding.GetUrlEncodedKey(Some(IterationsUrl(projectId, g, token, limit, Some(offset))),
                                         Some("offset"), unescape) == Ok(unescape(IntDecimal(offset)))
  {
    var q := IterationsQuery(projectId, g, token);
    QueryHasNoAmpersand(projectId, g, token);
    QueryStartsWithScheme(projectId, g, token);
    DecimalIsQuerySafe(offset);
    UrlShape(projectId, g, token, limit, Some(offset));
    if limit.Some? {
      var l := IntDecimal(limit.value);
      DecimalIsQuerySafe(limit.value);
      LimitTextShape(l);
      OffsetPairAfterLimit(q, "limit=" + l, IntDecimal(offset), unescape);
      OffsetAfterLimitSpelling(q, l, IntDecimal(offset));
    } else {
      OffsetPairAfterQuery(q, IntDecimal(offset), unescape);
      OffsetSpelling(q, IntDecimal(offset));
      assert q + "" == q;
    }
  }

  lemma {:induction false} LimitTextShape(l: string)
    requires '&' !in l
    ensures var p := "limit=" + l; '&' !in p && |p| > 0 && p[0] == 'l'
  {
  }
}
