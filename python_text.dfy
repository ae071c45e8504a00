/**
 The small part of Python's runtime that the query layer leans on: the
 exceptions it raises or catches, `str.upper` (over ASCII), `str.split` on a
 one-character separator with its inverse `str.join`, and `str(n)` for a
 one-digit integer.
 */
module PyText {

  /** The exceptions that can leave, or be caught in, the modelled code. */
  datatype PyException =
    | ValueError(message: string)
    | KeyError(key: string)
    | IndexError

  /** A value that may be absent (`None`). */
  datatype Option<T> = None | Some(value: T)

  /** A Python call either returns a value or raises an exception. */
  datatype Result<T> = Ok(value: T) | Raise(exc: PyException)

  /** `str(e)` for the exceptions above: a ValueError's message as it is, a
      KeyError's key between single quotes (`repr` of a key without quotes or
      backslashes). */
  function ExceptionText(e: PyException): (t: string)
    ensures e.ValueError? ==> t == e.message
    ensures e.KeyError? && '\'' !in e.key && '\\' !in e.key ==>
      |t| == |e.key| + 2 && t[0] == '\'' && t[|t| - 1] == '\'' && t[1..|t| - 1] == e.key
  {
    match e
    case ValueError(m) => m
    case KeyError(k) => "'" + k + "'"
    case IndexError => "list index out of range"
  }

  // ---------------------------------------------------------------------------
  // Case mapping

  predicate IsLowerAscii(c: char)
  {
    'a' <= c <= 'z'
  }

  /** `c.upper()` for ASCII; every other character is left as it is. */
  function UpperChar(c: char): (u: char)
    ensures !IsLowerAscii(u)
    ensures IsLowerAscii(c) ==> u as int == c as int - 32
    ensures !IsLowerAscii(c) ==> u == c
  {
    if IsLowerAscii(c) then (c as int - 32) as char else c
  }

  /** `s.upper()`: character-wise upper-casing, length preserved. */
  function Upper(s: string): (r: string)
    ensures |r| == |s|
    ensures forall i :: 0 <= i < |s| ==> r[i] == UpperChar(s[i])
    ensures forall i :: 0 <= i < |r| ==> !IsLowerAscii(r[i])
  {
    seq(|s|, i requires 0 <= i < |s| => UpperChar(s[i]))
  }

  /** Two strings are equal once both are upper-cased, compared letter by letter. */
  predicate EqualsIgnoringCase(a: string, b: string)
  {
    |a| == |b| && forall i :: 0 <= i < |a| ==> UpperChar(a[i]) == UpperChar(b[i])
  }

  /** A string with no lower-case ASCII letter. */
  predicate IsUpperCase(s: string)
  {
    forall i :: 0 <= i < |s| ==> !IsLowerAscii(s[i])
  }

  /** Upper-casing twice is upper-casing once. */
  lemma UpperIdempotent(s: string)
    ensures Upper(Upper(s)) == Upper(s)
  {
    var u := Upper(s);
    assert forall i :: 0 <= i < |u| ==> UpperChar(u[i]) == u[i];
  }

  /** Comparing upper-cased forms is the same as comparing ignoring case. */
  lemma UpperEqualsIff(s: string, t: string)
    requires IsUpperCase(t)
    ensures Upper(s) == t <==> EqualsIgnoringCase(s, t)
  {
    if EqualsIgnoringCase(s, t) {
      var u := Upper(s);
      assert |u| == |t|;
      forall i | 0 <= i < |u| ensures u[i] == t[i] {
        assert UpperChar(t[i]) == t[i];
      }
    }
    if Upper(s) == t {
      forall i | 0 <= i < |s| ensures UpperChar(s[i]) == UpperChar(t[i]) {
        assert UpperChar(t[i]) == t[i];
      }
    }
  }

  // ---------------------------------------------------------------------------
  // Where one string sits inside another

  /** `needle` occurs in `hay` starting at index `at`. */
  predicate OccursAt(needle: string, hay: string, at: nat)
  {
    at + |needle| <= |hay| && hay[at..at + |needle|] == needle
  }

  /** `hay` ends with `suffix`. */
  predicate EndsWith(hay: string, suffix: string)
  {
    |suffix| <= |hay| && hay[|hay| - |suffix|..] == suffix
  }

  /** A string is a prefix of itself followed by anything. */
  lemma PrefixOfConcat(a: string, b: string)
    ensures a <= a + b
  {
    assert (a + b)[..|a|] == a;
  }

  /** In `a + b`, `b` starts right after `a`. */
  lemma OccursAfter(a: string, b: string)
    ensures OccursAt(b, a + b, |a|)
  {
    assert (a + b)[|a|..|a| + |b|] == b;
  }

  /** `s + e` ends with `e`. */
  lemma EndsWithAppend(s: string, e: string)
    ensures EndsWith(s + e, e)
  {
    assert (s + e)[|s + e| - |e|..] == e;
  }

  /** A prefix of a prefix is a prefix. */
  lemma PrefixTransitive(p: string, s: string, t: string)
    requires p <= s && s <= t
    ensures p <= t
  {
    assert t[..|p|] == s[..|p|];
  }

  /** What occurs in a prefix occurs at the same place in the whole. */
  lemma OccursInExtension(needle: string, s: string, t: string, at: nat)
    requires s <= t && OccursAt(needle, s, at)
    ensures OccursAt(needle, t, at)
  {
    assert t[at..at + |needle|] == s[at..at + |needle|];
  }

  /** Regrouping a concatenation of five strings. */
  lemma ConcatRegroup(a: string, b: string, c: string, d: string, e: string)
    ensures a + (b + c + d) + e == a + b + c + (d + e)
  {
  }

  // ---------------------------------------------------------------------------
  // Splitting and joining on a one-character separator

  /** `s.split(sep)` for a one-character separator: the pieces between the
      separators, from left to right; never empty, and no piece holds `sep`. */
  function Split(s: string, sep: char): (parts: seq<string>)
    ensures |parts| >= 1
    ensures forall i :: 0 <= i < |parts| ==> sep !in parts[i]
    decreases |s|
  {
    if |s| == 0 then [""]
    else
      var rest := Split(s[1..], sep);
      if s[0] == sep then [""] + rest
      else [[s[0]] + rest[0]] + rest[1..]
  }

  /** The pieces put back together with `sep` between them: the inverse that
      characterises `Split` (see `JoinSplit` and `SplitJoin`). */
  function Join(parts: seq<string>, sep: char): string
    requires |parts| >= 1
  {
    if |parts| == 1 then parts[0]
    else parts[0] + [sep] + Join(parts[1..], sep)
  }

  /** Joining a piece in front of at least one more piece puts the separator
      between them. */
  lemma JoinCons(p: string, parts: seq<string>, sep: char)
    requires |parts| >= 1
    ensures Join([p] + parts, sep) == p + [sep] + Join(parts, sep)
  {
    assert ([p] + parts)[1..] == parts;
  }

  /** Growing the first piece by one character in front grows the join by
      that character. */
  lemma JoinExtendHead(c: char, parts: seq<string>, sep: char)
    requires |parts| >= 1
    ensures Join([[c] + parts[0]] + parts[1..], sep) == [c] + Join(parts, sep)
  {
    var grown := [[c] + parts[0]] + parts[1..];
    if |parts| > 1 {
      assert grown[1..] == parts[1..];
      assert [c] + parts[0] + [sep] + Join(parts[1..], sep) == [c] + (parts[0] + [sep] + Join(parts[1..], sep));
    }
  }

  /** Joining the pieces of a split gives back the string. */
  lemma {:induction false} JoinSplit(s: string, sep: char)
    ensures Join(Split(s, sep), sep) == s
    decreases |s|
  {
    if |s| > 0 {
      var rest := Split(s[1..], sep);
      JoinSplit(s[1..], sep);
      if s[0] == sep {
        JoinCons("", rest, sep);
      } else {
        JoinExtendHead(s[0], rest, sep);
      }
      assert s == [s[0]] + s[1..];
    }
  }

  /** A string without the separator splits into itself alone. */
  lemma {:induction false} SplitWithoutSep(s: string, sep: char)
    requires sep !in s
    ensures Split(s, sep) == [s]
    decreases |s|
  {
    if |s| > 0 {
      assert sep !in s[1..] by {
        forall c | c in s[1..] ensures c != sep { assert c in s; }
      }
      SplitWithoutSep(s[1..], sep);
      assert s == [s[0]] + s[1..];
    }
  }

  /** A string splits into a single piece exactly when it has no separator. */
  lemma SplitSingleIff(s: string, sep: char)
    ensures |Split(s, sep)| == 1 <==> sep !in s
  {
    if sep !in s {
      SplitWithoutSep(s, sep);
    } else {
      JoinSplit(s, sep);
    }
  }

  /** A leading separator-free piece followed by the separator splits off as
      the first piece. */
  lemma {:induction false} SplitCons(head: string, sep: char, tail: string)
    requires sep !in head
    ensures Split(head + [sep] + tail, sep) == [head] + Split(tail, sep)
    decreases |head|
  {
    var s := head + [sep] + tail;
    if |head| == 0 {
      assert s[1..] == tail;
    } else {
      assert sep !in head[1..] by {
        forall c | c in head[1..] ensures c != sep { assert c in head; }
      }
      SplitCons(head[1..], sep, tail);
      assert s[1..] == head[1..] + [sep] + tail;
      assert [head[0]] + head[1..] == head;
    }
  }

  /** "y-q" splits into y and q when neither holds the separator. */
  lemma SplitPair(y: string, q: string, sep: char)
    requires sep !in y && sep !in q
    ensures Split(y + [sep] + q, sep) == [y, q]
  {
    SplitCons(y, sep, q);
    SplitWithoutSep(q, sep);
  }

  /** "y-q-rest" splits into y, q and the pieces of rest. */
  lemma SplitTriple(y: string, q: string, rest: string, sep: char)
    requires sep !in y && sep !in q
    ensures Split(y + [sep] + q + [sep] + rest, sep) == [y, q] + Split(rest, sep)
  {
    assert y + [sep] + q + [sep] + rest == y + [sep] + (q + [sep] + rest);
    SplitCons(y, sep, q + [sep] + rest);
    SplitCons(q, sep, rest);
  }

  /** Splitting a join of separator-free pieces gives back the pieces. */
  lemma {:induction false} SplitJoin(parts: seq<string>, sep: char)
    requires |parts| >= 1
    requires forall i :: 0 <= i < |parts| ==> sep !in parts[i]
    ensures Split(Join(parts, sep), sep) == parts
    decreases |parts|
  {
    if |parts| == 1 {
      SplitWithoutSep(parts[0], sep);
    } else {
      SplitJoin(parts[1..], sep);
      SplitCons(parts[0], sep, Join(parts[1..], sep));
      assert [parts[0]] + parts[1..] == parts;
    }
  }

  // ---------------------------------------------------------------------------
  // Integers as text

  /** `str(n)` for a one-digit integer. */
  function DigitText(n: int): (r: string)
    requires 0 <= n <= 9
    ensures |r| == 1 && '0' <= r[0] <= '9'
    ensures r[0] as int - '0' as int == n
  {
    [('0' as int + n) as char]
  }
}
