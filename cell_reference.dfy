/** The cell reference resolver (`excel_cell_to_indices`): a spreadsheet
    address such as "C4" becomes the zero-based pair (row, column). Column
    letters are a bijective base-26 numeral (A = 1 ... Z = 26, AA = 27),
    read without regard to case; the row is the 1-based decimal row number. */
module CellReference {
  import opened Outcomes
  import opened PyStr

  /** The errors the extractor can raise. `InvalidCellReference` is the
      resolver's `ValueError`; `TooManyValuesToUnpack` is the `ValueError`
      Python raises when a range holds more than one ':'. */
  datatype RefError =
    | InvalidCellReference(ref: string)
    | TooManyValuesToUnpack(ref: string)

  /** The class `[A-Za-z]`. */
  predicate IsLetter(c: char) {
    'A' <= c <= 'Z' || 'a' <= c <= 'z'
  }

  predicate IsUpperLetter(c: char) {
    'A' <= c <= 'Z'
  }

  ghost predicate AllLetters(s: string) {
    forall k :: 0 <= k < |s| ==> IsLetter(s[k])
  }

  ghost predicate AllUpperLetters(s: string) {
    forall k :: 0 <= k < |s| ==> IsUpperLetter(s[k])
  }

  /** `str.upper()` on one character, as far as ASCII letters go. */
  function ToUpper(c: char): (u: char)
    ensures IsLetter(c) ==> IsUpperLetter(u)
    ensures IsUpperLetter(c) ==> u == c
    ensures !IsLetter(c) ==> u == c
  {
    if 'a' <= c <= 'z' then (c as int - 'a' as int + 'A' as int) as char else c
  }

  function UpperString(s: string): (u: string)
    ensures |u| == |s|
    ensures AllLetters(s) ==> AllUpperLetters(u)
  {
    seq(|s|, k requires 0 <= k < |s| => ToUpper(s[k]))
  }

  /** Digit value of a column letter: `ord(c.upper()) - ord('A') + 1`. */
  function LetterValue(c: char): (v: nat)
    requires IsLetter(c)
    ensures 1 <= v <= 26
  {
    ToUpper(c) as int - 'A' as int + 1
  }

  /** The upper-case letter of digit value `v`. */
  function Letter(v: nat): (c: char)
    requires 1 <= v <= 26
    ensures IsUpperLetter(c) && LetterValue(c) == v
  {
    ('A' as int + v - 1) as char
  }

  /** Upper-case letters are told apart by their digit value. */
  lemma LetterOfValue(c: char)
    requires IsUpperLetter(c)
    ensures Letter(LetterValue(c)) == c
  {
  }

  /** Length of the longest prefix of `s` made of letters. */
  function LetterRun(s: string): (n: nat)
    ensures n <= |s|
  {
    if s != [] && IsLetter(s[0]) then 1 + LetterRun(s[1..]) else 0
  }

  /** The run is all letters, and what follows it is not a letter. */
  lemma {:induction false} LetterRunSpec(s: string)
    ensures AllLetters(s[..LetterRun(s)])
    ensures LetterRun(s) < |s| ==> !IsLetter(s[LetterRun(s)])
    decreases |s|
  {
    if s != [] && IsLetter(s[0]) {
      LetterRunSpec(s[1..]);
      assert s[..LetterRun(s)] == [s[0]] + s[1..][..LetterRun(s[1..])];
    }
  }

  /** Length of the longest prefix of `s` made of digits. */
  function DigitRun(s: string): (n: nat)
    ensures n <= |s|
  {
    if s != [] && IsDigit(s[0]) then 1 + DigitRun(s[1..]) else 0
  }

  /** The run is all digits, and what follows it is not a digit. */
  lemma {:induction false} DigitRunSpec(s: string)
    ensures AllDigits(s[..DigitRun(s)])
    ensures DigitRun(s) < |s| ==> !IsDigit(s[DigitRun(s)])
    decreases |s|
  {
    if s != [] && IsDigit(s[0]) {
      DigitRunSpec(s[1..]);
      assert s[..DigitRun(s)] == [s[0]] + s[1..][..DigitRun(s[1..])];
    }
  }

  /** The two groups of a successful match. */
  datatype CellMatch = CellMatch(letters: string, digits: string)

  /** `re.match(r"([A-Za-z]+)([0-9]+)", s)`: the pattern is anchored at the
      start only, both groups are greedy, and a letter is never a digit, so
      the match is the longest letter prefix followed by the longest digit
      run after it, when both are non-empty. Anything after the digits is
      ignored. */
  function MatchCell(s: string): (m: Option<CellMatch>)
    ensures m.Some? <==> 0 < LetterRun(s) < |s| && IsDigit(s[LetterRun(s)])
    ensures m.Some? ==>
              && m.value.letters != [] && AllLetters(m.value.letters)
              && m.value.digits != [] && AllDigits(m.value.digits)
  {
    var l := LetterRun(s);
    var d := DigitRun(s[l..]);
    LetterRunSpec(s);
    DigitRunSpec(s[l..]);
    if l == 0 || d == 0 then None
    else
      assert s[..l + d] == s[..l] + s[l..][..d];
      Some(CellMatch(s[..l], s[l..][..d]))
  }

  /** A match is the string's leading letters followed by the digits after
      them, all of them: the character after the match is not a digit. */
  lemma MatchCellSpec(s: string)
    requires MatchCell(s).Some?
    ensures var m := MatchCell(s).value;
            var n := |m.letters| + |m.digits|;
            && n <= |s| && s[..n] == m.letters + m.digits
            && m.letters == s[..LetterRun(s)]
            && (n < |s| ==> !IsDigit(s[n]))
  {
    var l := LetterRun(s);
    var t := s[l..];
    var d := DigitRun(t);
    assert MatchCell(s).value == CellMatch(s[..l], t[..d]);
    DigitRunSpec(t);
    assert s[..l + d] == s[..l] + t[..d];
    if l + d < |s| {
      assert s[l + d] == t[d];
    }
  }

  /** The column number of a letter sequence, read as a bijective base-26
      numeral most significant letter first. */
  function ColumnNumber(letters: string): (n: nat)
    requires AllLetters(letters)
    ensures letters != [] ==> n >= 1
  {
    if letters == [] then 0
    else ColumnNumber(letters[..|letters| - 1]) * 26 + LetterValue(letters[|letters| - 1])
  }

  /** The letters of column number `n` (1-based): the inverse of `ColumnNumber`. */
  function ColumnLetters(n: nat): (s: string)
    requires n >= 1
    ensures s != [] && AllUpperLetters(s)
  {
    if n <= 26 then [Letter(n)]
    else ColumnLetters((n - 1) / 26) + [Letter((n - 1) % 26 + 1)]
  }

  /** Every column number has letters that read back as that number. */
  lemma {:induction false} ColumnLettersRoundTrip(n: nat)
    requires n >= 1
    ensures AllLetters(ColumnLetters(n))
    ensures ColumnNumber(ColumnLetters(n)) == n
  {
    var s := ColumnLetters(n);
    if n > 26 {
      var q, r := (n - 1) / 26, (n - 1) % 26;
      ColumnLettersRoundTrip(q);
      assert s[..|s| - 1] == ColumnLetters(q);
      assert n == q * 26 + r + 1;
    }
  }

  /** Every non-empty upper-case letter sequence is the spelling of its own
      column number, so the numbering is a bijection. */
  lemma {:induction false} ColumnNumberRoundTrip(s: string)
    requires s != [] && AllUpperLetters(s)
    ensures ColumnLetters(ColumnNumber(s)) == s
    decreases |s|
  {
    var n := ColumnNumber(s);
    var v := LetterValue(s[|s| - 1]);
    var p := s[..|s| - 1];
    LetterOfValue(s[|s| - 1]);
    if p != [] {
      var q := ColumnNumber(p);
      ColumnNumberRoundTrip(p);
      assert n == q * 26 + v;
      assert (n - 1) / 26 == q && (n - 1) % 26 == v - 1 by {
        assert n - 1 == q * 26 + (v - 1) && 0 <= v - 1 < 26;
      }
      assert s == p + [s[|s| - 1]];
    } else {
      assert s == [s[0]];
    }
  }

  /** Case does not matter: upper-casing the letters keeps the number. */
  lemma {:induction false} ColumnNumberIgnoresCase(s: string)
    requires AllLetters(s)
    ensures AllLetters(UpperString(s))
    ensures ColumnNumber(UpperString(s)) == ColumnNumber(s)
    decreases |s|
  {
    var u := UpperString(s);
    assert AllLetters(u) by {
      forall k | 0 <= k < |u| ensures IsLetter(u[k]) {
        assert IsUpperLetter(u[k]);
      }
    }
    if s != [] {
      var p := s[..|s| - 1];
      ColumnNumberIgnoresCase(p);
      assert u[..|u| - 1] == UpperString(p);
    }
  }

  /** The resolver's result: (row number - 1, column number - 1), or the
      error naming the reference when it does not start with letters
      followed by digits. A row number of 0 gives row index -1. */
  function Indices(s: string): (r: Result<(int, int), RefError>)
    ensures r.Failure? ==> r.error == InvalidCellReference(s)
    ensures r.Success? ==> r.value.0 >= -1 && r.value.1 >= 0
  {
    match MatchCell(s)
    case None => Failure(InvalidCellReference(s))
    case Some(m) => Success((DecimalValue(m.digits) - 1, ColumnNumber(m.letters) - 1))
  }

  /** `excel_cell_to_indices`: the column number is accumulated letter by
      letter over the upper-cased letters. */
  method ExcelCellToIndices(cellRef: string) returns (r: Result<(int, int), RefError>)
    ensures r == Indices(cellRef)
  {
    var m := MatchCell(cellRef);
    if m.None? {
      return Failure(InvalidCellReference(cellRef));
    }
    var colLetters := UpperString(m.value.letters);
    var rowNumber: int := DecimalValue(m.value.digits);
    ColumnNumberIgnoresCase(m.value.letters);
    var colNumber := AccumulateColumn(colLetters);
    r := Success((rowNumber - 1, colNumber - 1));
  }

  /** The column loop of `excel_cell_to_indices`: `col_number * 26 + value`
      for each upper-case letter in turn. */
  method AccumulateColumn(colLetters: string) returns (colNumber: int)
    requires AllLetters(colLetters) && AllUpperLetters(colLetters)
    ensures colNumber == ColumnNumber(colLetters)
  {
    colNumber := 0;
    for i := 0 to |colLetters|
      invariant colNumber == ColumnNumber(colLetters[..i])
    {
      assert colLetters[..i + 1][..i] == colLetters[..i];
      colNumber := colNumber * 26 + (colLetters[i] as int - 'A' as int + 1);
    }
    assert colLetters[..|colLetters|] == colLetters;
  }

  /** The address of zero-based cell (row, col), e.g. (3, 2) is "C4". */
  function CellName(row: nat, col: nat): string {
    ColumnLetters(col + 1) + DecimalString(row + 1)
  }

  /** Resolving an address gives back its indices, whatever text follows
      the address as long as it does not start with a digit. */
  lemma CellNameRoundTrip(row: nat, col: nat, rest: string)
    requires rest == [] || !IsDigit(rest[0])
    ensures Indices(CellName(row, col) + rest) == Success((row, col))
  {
    var letters := ColumnLetters(col + 1);
    var digits := DecimalString(row + 1);
    ColumnLettersRoundTrip(col + 1);
    DecimalRoundTrip(row + 1);
    assert CellName(row, col) + rest == letters + digits + rest;
    IndicesOfParts(letters, digits, rest, row, col);
  }

  lemma IndicesOfParts(letters: string, digits: string, rest: string, row: int, col: int)
    requires letters != [] && AllLetters(letters) && ColumnNumber(letters) == col + 1
    requires digits != [] && AllDigits(digits) && DecimalValue(digits) == row + 1
    requires rest == [] || !IsDigit(rest[0])
    ensures Indices(letters + digits + rest) == Success((row, col))
  {
    var s := letters + digits + rest;
    MatchCellOf(letters, digits, rest);
    IndicesOfMatch(s, CellMatch(letters, digits));
  }

  lemma IndicesOfMatch(s: string, m: CellMatch)
    requires MatchCell(s) == Some(m)
    ensures Indices(s) == Success((DecimalValue(m.digits) - 1, ColumnNumber(m.letters) - 1))
  {
  }

  /** A string of letters, then digits, then text not starting with a digit
      matches with exactly those letters and digits. */
  lemma MatchCellOf(letters: string, digits: string, rest: string)
    requires letters != [] && AllLetters(letters)
    requires digits != [] && AllDigits(digits)
    requires rest == [] || !IsDigit(rest[0])
    ensures MatchCell(letters + digits + rest) == Some(CellMatch(letters, digits))
  {
    var s := letters + digits + rest;
    assert s == letters + (digits + rest);
    LetterRunOf(letters, digits + rest);
    assert LetterRun(s) == |letters|;
    assert s[|letters|..] == digits + rest;
    assert s[..|letters|] == letters;
    DigitRunOf(digits, rest);
    assert DigitRun(s[|letters|..]) == |digits|;
    assert s[|letters|..][..|digits|] == digits;
  }

  lemma {:induction false} LetterRunOf(letters: string, rest: string)
    requires AllLetters(letters)
    requires rest == [] || !IsLetter(rest[0])
    ensures LetterRun(letters + rest) == |letters|
    decreases |letters|
  {
    if letters != [] {
      assert (letters + rest)[1..] == letters[1..] + rest;
      LetterRunOf(letters[1..], rest);
    } else {
      assert letters + rest == rest;
    }
  }

  lemma {:induction false} DigitRunOf(digits: string, rest: string)
    requires AllDigits(digits)
    requires rest == [] || !IsDigit(rest[0])
    ensures DigitRun(digits + rest) == |digits|
    decreases |digits|
  {
    if digits != [] {
      assert (digits + rest)[1..] == digits[1..] + rest;
      DigitRunOf(digits[1..], rest);
    } else {
      assert digits + rest == rest;
    }
  }

  /** Distinct cells have distinct addresses. */
  lemma CellNameInjective(r1: nat, c1: nat, r2: nat, c2: nat)
    ensures CellName(r1, c1) == CellName(r2, c2) ==> r1 == r2 && c1 == c2
  {
    CellNameRoundTrip(r1, c1, []);
    CellNameRoundTrip(r2, c2, []);
    assert CellName(r1, c1) + [] == CellName(r1, c1);
    assert CellName(r2, c2) + [] == CellName(r2, c2);
  }

  /** References without leading letters, without digits after the
      letters, or with nothing at all are rejected. */
  lemma RejectsMalformed(s: string)
    requires s == [] || !IsLetter(s[0]) || AllLetters(s)
    ensures Indices(s) == Failure(InvalidCellReference(s))
  {
    if s != [] && IsLetter(s[0]) {
      assert s[..|s|] == s;
      LetterRunOfAll(s);
    }
  }

  lemma {:induction false} LetterRunOfAll(s: string)
    requires AllLetters(s)
    ensures LetterRun(s) == |s|
  {
    LetterRunOf(s, []);
    assert s + [] == s;
  }

  /** Worked example: "C4" is row 3, column 2, whichever the case of the
      column letter. */
  lemma ResolverExamples()
    ensures Indices("C4") == Success((3, 2))
    ensures Indices("c4") == Success((3, 2))
  {
    assert Indices("C4") == Success((3, 2));
  }

  /** Worked examples: "A1" is the origin and "AA1" is column 26, the first
      two-letter column. */
  lemma ColumnExamples()
    ensures Indices("A1") == Success((0, 0))
    ensures Indices("AA1") == Success((0, 26))
  {
    assert DecimalValue("1") == 1 by { assert "1"[..0] == ""; }
    assert ColumnNumber("A") == 1 by { assert "A"[..0] == ""; }
    assert ColumnNumber("AA") == 27 by { assert "AA"[..1] == "A"; }
    assert "A1" == "A" + "1" + "";
    IndicesOfParts("A", "1", "", 0, 0);
    assert "AA1" == "AA" + "1" + "";
    IndicesOfParts("AA", "1", "", 0, 26);
  }

  /** Worked examples: "4A", "A" and "1" are rejected. */
  lemma RejectionExamples()
    ensures Indices("4A") == Failure(InvalidCellReference("4A"))
    ensures Indices("A") == Failure(InvalidCellReference("A"))
    ensures Indices("1") == Failure(InvalidCellReference("1"))
  {
    RejectsMalformed("4A");
    RejectsMalformed("A");
    RejectsMalformed("1");
  }
}
