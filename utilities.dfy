/**
 `term_name_to_number`: the quarter-name lookup. A fixed table maps the four
 quarter names to 1..4; the name is upper-cased before the lookup, and an
 unknown name raises ValueError with a message that names the input and
 lists the options.
 */
module Utilities {
  import opened PyText

  /** The lookup table of quarter names. */
  const QuarterDefinitions: map<string, int> :=
    map["WINTER" := 1, "SPRING" := 2, "SUMMER" := 3, "AUTUMN" := 4]

  /** The options the error message lists. */
  const QuarterOptions: string := "WINTER, SPRING, SUMMER, and AUTUMN"

  /** Where the offending name starts in the error message. */
  const NamePosition: nat := 13

  /** The text of the ValueError for an unknown quarter name. */
  function NotFoundMessage(quarterName: string): (m: string)
    ensures "Quarter name " <= m
    ensures OccursAt(quarterName, m, NamePosition)
    ensures EndsWith(m, QuarterOptions + ".")
  {
    var m := "Quarter name " + quarterName + " not found. Options are " + QuarterOptions + ".";
    assert m[..NamePosition] == "Quarter name ";
    assert m[NamePosition..NamePosition + |quarterName|] == quarterName;
    assert m[|m| - |QuarterOptions| - 1..] == QuarterOptions + ".";
    m
  }

  /** The quarter name with number `n`, independently of the table: the
      quarters in calendar order. */
  function QuarterName(n: int): (name: string)
    requires 1 <= n <= 4
    ensures |name| == 6 && IsUpperCase(name)
  {
    ["WINTER", "SPRING", "SUMMER", "AUTUMN"][n - 1]
  }

  /** `term_name_to_number(quarter_name)`. */
  function TermNameToNumber(quarterName: string): (r: Result<int>)
    ensures r.Ok? ==> 1 <= r.value <= 4
    ensures r.Raise? ==> r.exc.ValueError?
    ensures r.Raise? ==> OccursAt(quarterName, r.exc.message, NamePosition)
    ensures r.Raise? ==> EndsWith(r.exc.message, QuarterOptions + ".")
  {
    var key := Upper(quarterName);
    if key in QuarterDefinitions then Ok(QuarterDefinitions[key])
    else
      Raise(ValueError(NotFoundMessage(quarterName)))
  }

  /** The table's four entries. */
  lemma QuarterNumbers()
    ensures TermNameToNumber("WINTER") == Ok(1)
    ensures TermNameToNumber("SPRING") == Ok(2)
    ensures TermNameToNumber("SUMMER") == Ok(3)
    ensures TermNameToNumber("AUTUMN") == Ok(4)
  {
    assert Upper("WINTER") == "WINTER";
    assert Upper("SPRING") == "SPRING";
    assert Upper("SUMMER") == "SUMMER";
    assert Upper("AUTUMN") == "AUTUMN";
  }

  /** Different quarter names give different numbers. */
  lemma QuarterNumbersDistinct(a: string, b: string)
    requires TermNameToNumber(a).Ok? && TermNameToNumber(b).Ok?
    ensures TermNameToNumber(a).value == TermNameToNumber(b).value <==> Upper(a) == Upper(b)
  {
  }

  /** The lookup succeeds with `n` exactly when the name is the `n`-th
      quarter's name up to case; otherwise it raises the not-found error. */
  lemma TermNameToNumberIff(quarterName: string, n: int)
    ensures TermNameToNumber(quarterName) == Ok(n)
      <==> 1 <= n <= 4 && EqualsIgnoringCase(quarterName, QuarterName(n))
  {
    if 1 <= n <= 4 {
      UpperEqualsIff(quarterName, QuarterName(n));
    }
    if TermNameToNumber(quarterName) == Ok(n) {
      UpperEqualsIff(quarterName, QuarterName(n));
    }
  }

  /** An unknown name raises exactly the not-found ValueError. */
  lemma TermNameToNumberUnknown(quarterName: string)
    requires forall n :: 1 <= n <= 4 ==> !EqualsIgnoringCase(quarterName, QuarterName(n))
    ensures TermNameToNumber(quarterName) == Raise(ValueError(NotFoundMessage(quarterName)))
  {
    var r := TermNameToNumber(quarterName);
    if r.Ok? {
      TermNameToNumberIff(quarterName, r.value);
    }
  }

  /** Matching ignores case: a name and its upper-cased form are recognised
      together and give the same number. */
  lemma CaseInsensitive(quarterName: string)
    ensures TermNameToNumber(quarterName).Ok? == TermNameToNumber(Upper(quarterName)).Ok?
    ensures TermNameToNumber(quarterName).Ok? ==>
      TermNameToNumber(quarterName).value == TermNameToNumber(Upper(quarterName)).value
  {
    UpperIdempotent(quarterName);
  }

  /** Lower and mixed case are accepted. */
  lemma MixedCaseExamples()
    ensures TermNameToNumber("autumn") == Ok(4)
    ensures TermNameToNumber("Autumn") == Ok(4)
    ensures TermNameToNumber("winter") == Ok(1)
  {
    assert Upper("autumn") == "AUTUMN";
    assert Upper("Autumn") == "AUTUMN";
    assert Upper("winter") == "WINTER";
  }
}
