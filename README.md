# edw-clients: term parsing and the Compass enrolled-students query

This project models, in Dafny, the part of the `edw_clients` package that
turns a caller's request into SQL text before anything touches a database:

- `term_name_to_number` (`edw_clients/utilities.py`): a quarter name is
  upper-cased and looked up in a fixed table WINTER=1, SPRING=2, SUMMER=3,
  AUTUMN=4. An unknown name raises `ValueError` with a message that names the
  input and lists the four options.
- `CompassDAO.get_enrolled_students_df` (`edw_clients/compass/dao.py`) up to
  the database call:
  - the sis-term-id is split on `-`;
  - its second piece is looked up as a quarter name;
  - lookup errors are re-raised as a `ValueError` behind the prefix
    "Exception occured parsing sis-term-id: ";
  - the year-quarter key `yrq` is the first piece followed by the quarter digit;
  - `yrq` is put between quotes in the WHERE clause of a fixed SELECT text;
  - an optional search-filter clause (student number, name or e-mail) is
    appended;
  - the text ends with " ORDER BY enr.StudentName".

Python behaviour is modelled explicitly. A call returns `Result<T>`: either
`Ok(value)` or `Raise(exception)`, with the three exceptions that can occur
(`ValueError`, `KeyError`, `IndexError`). `str.split` on one character and
`str.join` are recursive functions proved inverse to each other.
`str.upper` works character by character over ASCII.

Files:

- `python_text.dfy` (module `PyText`): exceptions, `Result`, upper-casing,
  split and join, and string-position predicates.
- `utilities.dfy` (module `Utilities`): `term_name_to_number`.
- `compass_dao.dfy` (module `CompassDao`): sis-term-id parsing and query
  assembly. The query is assembled twice. `WithSearchFilter` and
  `QueryText` are the specification functions. `AppendSearchFilter` and
  `GetEnrolledStudentsQuery` are methods that follow the source's
  step-by-step `query +=` updates and are proved equal to the functions.

## Model

| member | source | states |
|---|---|---|
| Utilities.NotFoundMessage | edw_clients/utilities.py:55-56 | The not-found message starts with "Quarter name ", holds the given name verbatim at position 13, and ends with "WINTER, SPRING, SUMMER, and AUTUMN.". |
| Utilities.TermNameToNumber | edw_clients/utilities.py:39-56 | A found name gives a number in 1..4. Otherwise it raises a ValueError whose message holds the given name at position 13 and ends with "WINTER, SPRING, SUMMER, and AUTUMN." |
| Utilities.QuarterNumbers | edw_clients/utilities.py:46-53 | The four table entries: WINTER 1, SPRING 2, SUMMER 3, AUTUMN 4. |
| Utilities.QuarterNumbersDistinct | edw_clients/utilities.py:46-53 | Two recognised names give the same number exactly when their upper-cased forms are equal. |
| Utilities.TermNameToNumberIff | edw_clients/utilities.py:46-53 | The lookup returns n exactly when 1 <= n <= 4 and the name equals the n-th quarter name ignoring case (both directions). |
| Utilities.TermNameToNumberUnknown | edw_clients/utilities.py:52-56 | A name that matches no quarter up to case raises exactly ValueError("Quarter name <name> not found. Options are WINTER, SPRING, SUMMER, and AUTUMN."). |
| Utilities.CaseInsensitive | edw_clients/utilities.py:53 | A name and its upper-cased form are recognised together and give the same number. |
| Utilities.MixedCaseExamples | edw_clients/utilities.py:53 | "autumn" and "Autumn" give 4, "winter" gives 1. |
| PyText.ExceptionText | edw_clients/compass/dao.py:22 | `str(e)` of a ValueError is its message; of a KeyError whose key holds no single quote and no backslash it is the key between single quotes. |
| PyText.UpperChar | edw_clients/utilities.py:53 | Upper-casing one character: a lower-case ASCII letter moves down by 32, every other character is unchanged, and no lower-case letter remains. |
| PyText.Upper | edw_clients/utilities.py:53 | `str.upper` keeps the length, maps each character through UpperChar, and leaves no lower-case ASCII letter. |
| PyText.UpperIdempotent | edw_clients/utilities.py:53 | Upper-casing twice gives the same as upper-casing once. |
| PyText.UpperEqualsIff | edw_clients/utilities.py:53 | For an upper-case key, `s.upper() == key` holds exactly when s equals key ignoring case. |
| PyText.Split | edw_clients/compass/dao.py:18 | `str.split(sep)` returns at least one piece, and no piece contains the separator. |
| PyText.JoinSplit | edw_clients/compass/dao.py:18 | Joining the pieces of a split with the separator gives back the original string. |
| PyText.SplitJoin | edw_clients/compass/dao.py:18 | Splitting the join of separator-free pieces gives back the same pieces. |
| PyText.SplitWithoutSep | edw_clients/compass/dao.py:18 | A string without the separator splits into a list holding only itself. |
| PyText.SplitSingleIff | edw_clients/compass/dao.py:18-20 | The split has a single piece exactly when the separator is absent, which is when `parts[1]` fails. |
| PyText.SplitCons | edw_clients/compass/dao.py:18 | A separator-free head followed by the separator becomes the first piece, and the rest is split independently. |
| PyText.SplitPair | edw_clients/compass/dao.py:18 | "y-q" with separator-free y and q splits into exactly [y, q]. |
| PyText.SplitTriple | edw_clients/compass/dao.py:18 | "y-q-rest" splits into y, q and then the pieces of rest. |
| PyText.DigitText | edw_clients/compass/dao.py:20 | `str(n)` for n in 0..9 is one digit character whose value is n. |
| CompassDao.ParseTermId | edw_clients/compass/dao.py:15-23 | Raises IndexError exactly when the id has no '-'. Any other exception is a ValueError whose message starts with "Exception occured parsing sis-term-id: ". On success `yrq` ends with a quarter digit 1..4. |
| CompassDao.ParseTermIdRecognised | edw_clients/compass/dao.py:18-23 | For "Y-Q" where Q is the n-th quarter name in any case, `yrq` is Y followed by the digit n. |
| CompassDao.ParseTermIdUnrecognised | edw_clients/compass/dao.py:18-22 | For "Y-Q" with an unknown Q, the result is ValueError(prefix + the lookup's not-found message). |
| CompassDao.ExtraPiecesIgnored | edw_clients/compass/dao.py:18-20 | Pieces after the second '-' never change the outcome. |
| CompassDao.ParseAutumnExample | edw_clients/compass/dao.py:15-23 | "2021-AUTUMN" gives "20214". |
| CompassDao.ParseWinterExample | edw_clients/compass/dao.py:15-23 | "2022-winter" gives "20221". |
| CompassDao.ParseExtraPiecesExample | edw_clients/compass/dao.py:15-23 | "abc-SPRING-x" gives "abc2": the year is not checked and extra pieces are dropped. |
| CompassDao.ParseMissingQuarterExample | edw_clients/compass/dao.py:18-20 | "2021" raises IndexError, which the `except (KeyError, ValueError)` clause does not catch. |
| CompassDao.ParseUnknownQuarterExample | edw_clients/compass/dao.py:18-22 | "2021-FALL" raises the wrapped not-found ValueError. |
| CompassDao.ActiveSearchFilter | edw_clients/compass/dao.py:50 | The search filter is active exactly when `filters` is given and its "searchFilter" entry is a non-empty dict, and it is then that dict. |
| CompassDao.FilterClause | edw_clients/compass/dao.py:53-60 | The clause is empty exactly when the filter type is unknown. For a known type it is the type's fixed head, the filter text verbatim, and the type's fixed tail. |
| CompassDao.BaseQuery | edw_clients/compass/dao.py:25-48 | The query starts with the fixed SELECT text, followed directly by `yrq` and then the closing quote. |
| CompassDao.WhereClauseQuotesYrq | edw_clients/compass/dao.py:46 | The SELECT text ends with "AcademicYrQtr = '", and the text after `yrq` starts with a quote, so the characters of `yrq` sit between the opening and the closing quote. |
| CompassDao.WithSearchFilter | edw_clients/compass/dao.py:50-62 | On success the result extends the query so far and ends with " ORDER BY enr.StudentName". It raises exactly when an active search filter lacks "filterText" or "filterType". The exception is then a KeyError naming "filterText" if that key is missing, since it is read first, and "filterType" otherwise. |
| CompassDao.AppendSearchFilter | edw_clients/compass/dao.py:50-62 | The step-by-step `query +=` updates compute exactly WithSearchFilter. |
| CompassDao.QueryText | edw_clients/compass/dao.py:25-62 | A successful query starts with the SELECT text, has `yrq` and the closing quote right after it, and ends with the ORDER BY. Its only failure is a KeyError. |
| CompassDao.GetEnrolledStudentsQuery | edw_clients/compass/dao.py:14-62 | A parse failure is re-raised before any filter is read. Otherwise the result is QueryText of the parsed `yrq`. |
| CompassDao.UnfilteredIff | edw_clients/compass/dao.py:50-62 | Only the ORDER BY is appended exactly when there is no active search filter or its type is unknown (both directions). |
| CompassDao.FilteredShape | edw_clients/compass/dao.py:51-60 | For a known type, the query is the text so far, a fixed head, the filter text verbatim, a fixed tail and the ORDER BY. Head and tail depend only on the type. |

## Left out

- PyText.ExceptionText: for a KeyError it always puts the key between single quotes. It does not model `repr`'s switch to double quotes for a key holding a single quote, nor its escaping of backslashes and non-printable characters, so its contract covers only keys without single quotes and backslashes. No KeyError reaches edw_clients/compass/dao.py:22, because `term_name_to_number` raises only ValueError.
- Upper-casing covers ASCII only. Python's full Unicode `str.upper` is not modelled. It also maps some non-ASCII characters to ASCII letters, such as U+0131 (dotless i) and U+017F (long s), so those spellings of a quarter name are not recognised here.
- The database step, `get_connection` and `pd.read_sql` (edw_clients/compass/dao.py:64-66), is left out because it is I/O. The model returns the query text that would be sent.
- `edw_clients/base.py`, the connection settings and the package wiring are not part of this model.
- `datestring_to_datetime` in edw_clients/utilities.py is not part of this model.
- Arguments are assumed to be strings, and the search-filter dict's values are assumed to be strings. A non-string argument would raise AttributeError or TypeError in Python; that is not modelled.
- A truthy `searchFilter` value that is not a dict is not modelled.
- Python's exception chaining (`__context__`) is not modelled. Only the exception that leaves each call is.
- The meaning of the SQL text is not modelled, only its characters. The SELECT text is written in short concatenated pieces, but it is character for character the source's f-string, including the trailing space after `fspe.MajorKeyId`.
- CompassDao.ParseTermId does not check the number of pieces. Pieces after the second are ignored, and a missing quarter piece lets `IndexError` escape instead of raising `ValueError`.
- CompassDao.WhereClauseQuotesYrq: the year piece goes into `yrq` unchecked, so a quote in it (as in "O'1-AUTUMN") ends the SQL literal early. The model is about characters only and does not capture where SQL would end the literal.
- The error prefix keeps the source's spelling "occured".
