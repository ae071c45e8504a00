/**
 `CompassDAO.get_enrolled_students_df` up to the point where the query is
 handed to the database: the sis-term-id is split on '-', its quarter name is
 looked up, the year-quarter key `yrq` is put into the WHERE clause of a
 fixed SELECT text, an optional search-filter clause is appended, and the
 text ends with an ORDER BY.
 */
module CompassDao {
  import opened PyText
  import opened Utilities

  /** What the ValueError raised for a bad sis-term-id starts with. */
  const ParseErrorPrefix: string := "Exception occured parsing sis-term-id: "

  /** Indentation of the SELECT text's lines. */
  const Indent12: string := "            "
  const Indent16: string := "                "

  /** The SELECT text before its WHERE line: a newline, then the SELECT, FROM
      and JOIN lines. Each line is its indentation followed by pieces of at most
      12 characters, cut after a space or a dot; the cut points carry no
      meaning, and short pieces keep proofs about the text cheap. */
  const SelectLinesText: string :=
    "\n" +
    Indent12 + "SELECT " + "DISTINCT " + "TOP(250)\n" +
    Indent16 + "enr." + "StudentNumber,\n" +
    Indent16 + "stu1." + "uw_netid as " + "UWNetID,\n" +
    Indent16 + "enr." + "StudentName,\n" +
    Indent16 + "enr." + "BirthDate,\n" +
    Indent16 + "enr." + "StudentEmail,\n" +
    Indent16 + "enr." + "ExternalEmail,\n" +
    Indent16 + "enr." + "LocalPhoneNumber,\n" +
    Indent16 + "enr.Gender,\n" +
    Indent16 + "enr.GPA,\n" +
    Indent16 + "enr." + "TotalCredits,\n" +
    Indent16 + "dm." + "MajorFullName,\n" +
    Indent16 + "enr." + "CampusDesc,\n" +
    Indent16 + "enr." + "ClassDesc,\n" +
    Indent16 + "enr." + "EnrollStatusCode\n" +
    Indent12 + "FROM " + "EDWPresentation." + "sec." + "EnrolledStudent " + "AS enr\n" +
    Indent12 + "LEFT JOIN " + "UWSDBDataStore." + "sec." + "student_1 " + "AS stu1 ON " + "enr." + "SystemKey = " + "stu1." + "system_key\n" +
    Indent12 + "LEFT JOIN " + "EDWPresentation." + "sec." + "factStudentProgramEnrollment " + "AS fspe ON " + "fspe." + "StudentKeyId " + "= enr." + "SystemKey\n" +
    Indent12 + "LEFT JOIN " + "EDWPresentation." + "sec." + "dimMajor AS " + "dm ON dm." + "MajorKeyId " + "= fspe." + "MajorKeyId \n"

  /** The comparison in the WHERE line, up to the opening quote of `yrq`. */
  const YrqComparison: string := "AcademicYrQtr = '"

  /** The SELECT text up to the opening quote of the `yrq` literal. */
  const SelectText: string := SelectLinesText + Indent12 + "WHERE " + YrqComparison

  /** What follows `yrq` in the SELECT text: the closing quote, a newline and
      the indentation before the closing triple quote. */
  const SelectTail: string := "'\n" + Indent12

  /** The suffix every query ends with. */
  const OrderBy: string := " ORDER BY enr.StudentName"

  // ---------------------------------------------------------------------------
  // Term parsing

  /** The year-quarter key for a sis-term-id such as "2021-AUTUMN", or the
      exception that leaves the parsing step. Everything up to the first '-'
      is the year, the piece after it the quarter name; further pieces are
      ignored. A missing quarter piece raises IndexError, which the
      `except (KeyError, ValueError)` clause lets through; a lookup error is
      re-raised as a ValueError whose message carries the lookup's message. */
  function ParseTermId(sisTermId: string): (r: Result<string>)
    ensures r == Raise(IndexError) <==> '-' !in sisTermId
    ensures r.Raise? ==> r.exc.IndexError? || r.exc.ValueError?
    ensures r.Raise? && r.exc.ValueError? ==> ParseErrorPrefix <= r.exc.message
    ensures r.Ok? ==> |r.value| >= 1 && '1' <= r.value[|r.value| - 1] <= '4'
  {
    var parts := Split(sisTermId, '-');
    SplitSingleIff(sisTermId, '-');
    if |parts| < 2 then Raise(IndexError)
    else
      var year := parts[0];
      match TermNameToNumber(parts[1])
      case Ok(n) => Ok(year + DigitText(n))
      case Raise(e) =>
        if e.KeyError? || e.ValueError? then Raise(ValueError(ParseErrorPrefix + ExceptionText(e)))
        else Raise(e)
  }

  /** For "Y-Q" with a recognised quarter name Q (any case), `yrq` is Y
      followed by the quarter's single digit. */
  lemma ParseTermIdRecognised(year: string, quarter: string, n: int)
    requires '-' !in year && '-' !in quarter
    requires 1 <= n <= 4 && EqualsIgnoringCase(quarter, QuarterName(n))
    ensures ParseTermId(year + "-" + quarter) == Ok(year + DigitText(n))
  {
    SplitPair(year, quarter, '-');
    TermNameToNumberIff(quarter, n);
  }

  /** For "Y-Q" with an unrecognised quarter name Q, the lookup's ValueError is
      re-raised behind the parse-error prefix. */
  lemma ParseTermIdUnrecognised(year: string, quarter: string)
    requires '-' !in year && '-' !in quarter
    requires forall n :: 1 <= n <= 4 ==> !EqualsIgnoringCase(quarter, QuarterName(n))
    ensures ParseTermId(year + "-" + quarter)
      == Raise(ValueError(ParseErrorPrefix + NotFoundMessage(quarter)))
  {
    SplitPair(year, quarter, '-');
    TermNameToNumberUnknown(quarter);
  }

  /** Pieces after the second '-' do not change the outcome. */
  lemma ExtraPiecesIgnored(year: string, quarter: string, rest: string)
    requires '-' !in year && '-' !in quarter
    ensures ParseTermId(year + "-" + quarter + "-" + rest) == ParseTermId(year + "-" + quarter)
  {
    SplitPair(year, quarter, '-');
    SplitTriple(year, quarter, rest, '-');
  }

  /** "2021-AUTUMN" gives "20214". */
  lemma ParseAutumnExample()
    ensures ParseTermId("2021-AUTUMN") == Ok("20214")
  {
    assert "2021-AUTUMN" == "2021" + "-" + "AUTUMN";
    assert '-' !in "2021" && '-' !in "AUTUMN";
    assert EqualsIgnoringCase("AUTUMN", QuarterName(4));
    ParseTermIdRecognised("2021", "AUTUMN", 4);
    assert "2021" + DigitText(4) == "20214";
  }

  /** Lower case is accepted: "2022-winter" gives "20221". */
  lemma ParseWinterExample()
    ensures ParseTermId("2022-winter") == Ok("20221")
  {
    assert "2022-winter" == "2022" + "-" + "winter";
    assert '-' !in "2022" && '-' !in "winter";
    assert EqualsIgnoringCase("winter", QuarterName(1));
    ParseTermIdRecognised("2022", "winter", 1);
    assert "2022" + DigitText(1) == "20221";
  }

  /** The year is not checked and extra pieces are dropped: "abc-SPRING-x"
      gives "abc2". */
  lemma ParseExtraPiecesExample()
    ensures ParseTermId("abc-SPRING-x") == Ok("abc2")
  {
    assert "abc-SPRING-x" == "abc" + "-" + "SPRING" + "-" + "x";
    assert '-' !in "abc" && '-' !in "SPRING";
    ExtraPiecesIgnored("abc", "SPRING", "x");
    assert EqualsIgnoringCase("SPRING", QuarterName(2));
    ParseTermIdRecognised("abc", "SPRING", 2);
    assert "abc" + DigitText(2) == "abc2";
  }

  /** "2021" has no quarter piece and raises IndexError, not ValueError. */
  lemma ParseMissingQuarterExample()
    ensures ParseTermId("2021") == Raise(IndexError)
  {
    assert '-' !in "2021";
  }

  /** "2021-FALL" raises the wrapped not-found ValueError. */
  lemma ParseUnknownQuarterExample()
    ensures ParseTermId("2021-FALL") == Raise(ValueError(ParseErrorPrefix + NotFoundMessage("FALL")))
  {
    assert "2021-FALL" == "2021" + "-" + "FALL";
    assert '-' !in "2021" && '-' !in "FALL";
    assert forall n :: 1 <= n <= 4 ==> |QuarterName(n)| != |"FALL"|;
    ParseTermIdUnrecognised("2021", "FALL");
  }

  // ---------------------------------------------------------------------------
  // Query text

  /** The `filters` argument (a dict); only its "searchFilter" entry is read.
      `searchFilter` is None when the key is absent or its value is None; the
      value is otherwise the searchFilter dict, with string keys and values. */
  datatype Filters = Filters(searchFilter: Option<map<string, string>>)

  /** The search-filter dict the query uses: present only when `filters` is
      given and its "searchFilter" entry is truthy (a non-empty dict). */
  function ActiveSearchFilter(filters: Option<Filters>): (active: Option<map<string, string>>)
    ensures active.Some? <==>
      (filters.Some? && filters.value.searchFilter.Some? && filters.value.searchFilter.value != map[])
    ensures active.Some? ==> filters.value.searchFilter == active
  {
    if filters.Some? && filters.value.searchFilter.Some? && |filters.value.searchFilter.value| > 0
    then filters.value.searchFilter
    else None
  }

  /** The three filter types the query builder knows. */
  predicate IsKnownFilterType(filterType: string)
  {
    filterType == "student-number" || filterType == "student-name" || filterType == "student-email"
  }

  /** The SELECT text with `yrq` in its WHERE clause. */
  function BaseQuery(yrq: string): (q: string)
    ensures SelectText <= q
    ensures OccursAt(yrq + SelectTail, q, |SelectText|)
  {
    PrefixOfConcat(SelectText, yrq + SelectTail);
    OccursAfter(SelectText, yrq + SelectTail);
    SelectText + (yrq + SelectTail)
  }

  /** The WHERE clause compares AcademicYrQtr with exactly `yrq`: the SELECT
      text ends with the opening of the comparison, and the text after `yrq`
      starts with the closing quote. */
  lemma WhereClauseQuotesYrq()
    ensures EndsWith(SelectText, YrqComparison)
    ensures SelectTail[0] == '\''
  {
    EndsWithAppend(SelectLinesText + Indent12 + "WHERE ", YrqComparison);
  }

  /** The fixed text before and after the filter text, per filter type: one
      AND ... LIKE condition with the text between '%' signs. The name and
      email forms upper-case both the column and the pattern. */
  const NumberHead: string := " AND " + "enr.StudentNumber" + " LIKE " + "'%"
  const NameHead: string := " AND " + "UPPER(enr.StudentName)" + " LIKE " + "UPPER('%"
  const EmailHead: string := " AND " + "UPPER(enr.StudentEmail)" + " LIKE " + "UPPER('%"
  const NumberTail: string := "%'"
  const UpperTail: string := "%')"

  /** The clause appended for a search filter; empty for an unknown type. */
  function FilterClause(filterType: string, filterText: string): (clause: string)
    ensures clause == "" <==> !IsKnownFilterType(filterType)
    ensures IsKnownFilterType(filterType) ==>
      clause == ClauseHead(filterType) + filterText + ClauseTail(filterType)
  {
    if filterType == "student-number" then NumberHead + filterText + NumberTail
    else if filterType == "student-name" then NameHead + filterText + UpperTail
    else if filterType == "student-email" then EmailHead + filterText + UpperTail
    else ""
  }

  /** What follows the SELECT text: the search-filter clause, if any, then the
      ORDER BY; or the KeyError raised when an active search filter lacks
      "filterText" or "filterType". `query` is the text built so far. */
  function WithSearchFilter(query: string, filters: Option<Filters>): (r: Result<string>)
    ensures r.Ok? ==> query <= r.value && EndsWith(r.value, OrderBy)
    ensures r.Raise? <==>
      (ActiveSearchFilter(filters).Some? &&
       ("filterText" !in ActiveSearchFilter(filters).value || "filterType" !in ActiveSearchFilter(filters).value))
    ensures r.Raise? ==> r.exc.KeyError?
    ensures r.Raise? ==>
      r.exc == KeyError(if "filterText" !in ActiveSearchFilter(filters).value then "filterText" else "filterType")
  {
    match ActiveSearchFilter(filters)
    case None =>
      PrefixOfConcat(query, OrderBy);
      EndsWithAppend(query, OrderBy);
      Ok(query + OrderBy)
    case Some(sf) =>
      if "filterText" !in sf then Raise(KeyError("filterText"))
      else if "filterType" !in sf then Raise(KeyError("filterType"))
      else
        var clause := FilterClause(sf["filterType"], sf["filterText"]);
        PrefixOfConcat(query, clause + OrderBy);
        EndsWithAppend(query + clause, OrderBy);
        Ok(query + clause + OrderBy)
  }

  /** The full query text for a given `yrq`: it starts with the SELECT text,
      has `yrq` right after it inside the WHERE clause's quotes, and ends with
      the ORDER BY. */
  function QueryText(yrq: string, filters: Option<Filters>): (r: Result<string>)
    ensures r.Ok? ==> SelectText <= r.value && EndsWith(r.value, OrderBy)
    ensures r.Ok? ==> OccursAt(yrq + SelectTail, r.value, |SelectText|)
    ensures r.Raise? ==> r.exc.KeyError?
  {
    var r := WithSearchFilter(BaseQuery(yrq), filters);
    if r.Ok? then
      PrefixTransitive(SelectText, BaseQuery(yrq), r.value);
      OccursInExtension(yrq + SelectTail, BaseQuery(yrq), r.value, |SelectText|);
      r
    else r
  }

  /** The search-filter step as the source writes it: conditional appends to
      the local `query` string. */
  method AppendSearchFilter(query: string, filters: Option<Filters>) returns (r: Result<string>)
    ensures r == WithSearchFilter(query, filters)
  {
    var q := query;
    if filters.Some? && filters.value.searchFilter.Some? && |filters.value.searchFilter.value| > 0 {
      var sf := filters.value.searchFilter.value;
      if "filterText" !in sf {
        return Raise(KeyError("filterText"));
      }
      var filterText := sf["filterText"];
      if "filterType" !in sf {
        return Raise(KeyError("filterType"));
      }
      var filterType := sf["filterType"];
      assert ActiveSearchFilter(filters) == Some(sf);
      if filterType == "student-number" {
        q := q + (NumberHead + filterText + NumberTail);
      } else if filterType == "student-name" {
        q := q + (NameHead + filterText + UpperTail);
      } else if filterType == "student-email" {
        q := q + (EmailHead + filterText + UpperTail);
      }
      assert q == query + FilterClause(filterType, filterText);
    }
    q := q + OrderBy;
    r := Ok(q);
  }

  /** `get_enrolled_students_df` up to the database call: parse the term id,
      fill the SELECT text, then apply the search filter; a parse error leaves
      before any filter is read. */
  method GetEnrolledStudentsQuery(sisTermId: string, filters: Option<Filters>) returns (r: Result<string>)
    ensures ParseTermId(sisTermId).Raise? ==> r == Raise(ParseTermId(sisTermId).exc)
    ensures ParseTermId(sisTermId).Ok? ==> r == QueryText(ParseTermId(sisTermId).value, filters)
  {
    var parsed := ParseTermId(sisTermId);
    if parsed.Raise? {
      return Raise(parsed.exc);
    }
    var yrq := parsed.value;
    var query := BaseQuery(yrq);
    r := AppendSearchFilter(query, filters);
  }

  // ---------------------------------------------------------------------------
  // Shape of the query text

  /** The fixed text before the filter text in the clause for a known type. */
  function ClauseHead(filterType: string): string
    requires IsKnownFilterType(filterType)
  {
    if filterType == "student-number" then NumberHead
    else if filterType == "student-name" then NameHead
    else EmailHead
  }

  /** The fixed text after the filter text in the clause for a known type. */
  function ClauseTail(filterType: string): string
    requires IsKnownFilterType(filterType)
  {
    if filterType == "student-number" then NumberTail else UpperTail
  }

  /** With no active search filter, or one of an unknown type, only the ORDER
      BY is appended; with a known type something more is. */
  lemma UnfilteredIff(query: string, filters: Option<Filters>)
    requires WithSearchFilter(query, filters).Ok?
    ensures WithSearchFilter(query, filters) == Ok(query + OrderBy)
      <==> (ActiveSearchFilter(filters).None? ||
            !IsKnownFilterType(ActiveSearchFilter(filters).value["filterType"]))
  {
    var sf := ActiveSearchFilter(filters);
    if sf.Some? {
      var ty, t := sf.value["filterType"], sf.value["filterText"];
      var clause := FilterClause(ty, t);
      assert WithSearchFilter(query, filters) == Ok(query + clause + OrderBy);
      if IsKnownFilterType(ty) {
        assert |clause| > 0;
        assert |query + clause + OrderBy| != |query + OrderBy|;
      } else {
        assert query + clause == query;
      }
    }
  }

  /** A filtered query is the text so far, a fixed head, the filter text
      verbatim, and a fixed tail ending in the ORDER BY, where head and tail
      depend only on the filter type: two filters of one type give queries
      that differ only in the text put in. */
  lemma FilteredShape(query: string, filters: Option<Filters>)
    requires ActiveSearchFilter(filters).Some?
    requires "filterText" in ActiveSearchFilter(filters).value
    requires "filterType" in ActiveSearchFilter(filters).value
    requires IsKnownFilterType(ActiveSearchFilter(filters).value["filterType"])
    ensures var sf := ActiveSearchFilter(filters).value;
      WithSearchFilter(query, filters) == Ok(query + ClauseHead(sf["filterType"])
                                             + sf["filterText"] + (ClauseTail(sf["filterType"]) + OrderBy))
  {
    var sf := ActiveSearchFilter(filters).value;
    var ty, t := sf["filterType"], sf["filterText"];
    var head, tail := ClauseHead(ty), ClauseTail(ty);
    assert FilterClause(ty, t) == head + t + tail;
    ConcatRegroup(query, head, t, tail, OrderBy);
  }
}
