/** Spreadsheet cell references: column letters and row numbers. */
module CellReferences {
  import opened Statuses

  predicate Letter(c: char) {
    'A' <= c <= 'Z'
  }

  predicate Letters(s: string) {
    s != "" && forall i :: 0 <= i < |s| ==> Letter(s[i])
  }

  /** The value of the letters read so far, as a numeral in base 26 with digits 1 to 26. */
  function ColumnOf(s: string): int {
    if s == "" then 0 else ColumnOf(s[..|s| - 1]) * 26 + (s[|s| - 1] as int - 64)
  }

  /** `_column_index`. */
  method ColumnIndex(letters: string) returns (value: int)
    ensures value == ColumnOf(letters)
  {
    value := 0;
    var i := 0;
    while i < |letters|
      invariant 0 <= i <= |letters| && value == ColumnOf(letters[..i])
    {
      assert letters[..i + 1][..i] == letters[..i];
      value := value * 26 + (letters[i] as int - 64);
      i := i + 1;
    }
    assert letters[..i] == letters;
  }

  /** The column name of a positive number. */
  function NameOf(n: nat): string {
    if n == 0 then "" else NameOf((n - 1) / 26) + ['A' + ((n - 1) % 26) as char]
  }

  lemma {:induction false} NameIsLetters(n: nat)
    ensures n > 0 ==> Letters(NameOf(n))
    ensures n == 0 <==> NameOf(n) == ""
  {
    if n > 0 {
      NameIsLetters((n - 1) / 26);
      assert (n - 1) % 26 < 26;
    }
  }

  /** Every positive number is the index of its name. */
  lemma {:induction false} IndexOfName(n: nat)
    ensures ColumnOf(NameOf(n)) == n
  {
    if n > 0 {
      var front := NameOf((n - 1) / 26);
      IndexOfName((n - 1) / 26);
      assert NameOf(n)[..|front|] == front;
      var digit := (n - 1) % 26;
      assert 'A' + digit as char == (65 + digit) as char;
    }
  }

  /** Every letter string is the name of its index, and the index is positive: column letters and positive
      numbers correspond one to one. */
  lemma {:induction false} NameOfIndex(s: string)
    requires Letters(s)
    ensures ColumnOf(s) > 0 && NameOf(ColumnOf(s)) == s
  {
    var n := |s| - 1;
    var front, last := s[..n], s[n];
    var digit := last as int - 64;
    assert 1 <= digit <= 26;
    assert s == front + [last];
    if front != "" {
      NameOfIndex(front);
    }
    var value := ColumnOf(s);
    assert value == ColumnOf(front) * 26 + digit;
    assert (value - 1) / 26 == ColumnOf(front) && (value - 1) % 26 == digit - 1;
    assert 'A' + (digit - 1) as char == last;
  }

  // ---------- whole references ----------

  predicate DigitChar(c: char) {
    '0' <= c <= '9'
  }

  function Number(s: string): nat
    requires forall i :: 0 <= i < |s| ==> DigitChar(s[i])
  {
    if s == "" then 0
    else
      assert DigitChar(s[|s| - 1]);
      Number(s[..|s| - 1]) * 10 + (s[|s| - 1] as int - 48)
  }

  function Numeral(n: nat): string {
    if n == 0 then "" else Numeral(n / 10) + ['0' + (n % 10) as char]
  }

  function LeadingLetters(s: string): (n: nat)
    ensures n <= |s| && (forall i :: 0 <= i < n ==> Letter(s[i])) && (n < |s| ==> !Letter(s[n]))
  {
    if s != "" && Letter(s[0]) then 1 + LeadingLetters(s[1..]) else 0
  }

  /** `_cell_position`: row and column of a reference of at most four letters and a number without leading
      zero. */
  function Position(ref: string): Option<(nat, int)> {
    var n := LeadingLetters(ref);
    if 1 <= n <= 4 && n < |ref| && ref[n] != '0' && forall i :: n <= i < |ref| ==> DigitChar(ref[i])
    then Some((Number(ref[n..]), ColumnOf(ref[..n])))
    else None
  }

  lemma {:induction false} NumberOfNumeral(n: nat)
    ensures forall i :: 0 <= i < |Numeral(n)| ==> DigitChar(Numeral(n)[i])
    ensures Number(Numeral(n)) == n
    ensures n > 0 ==> Numeral(n) != "" && Numeral(n)[0] != '0'
  {
    if n > 0 {
      var front, digit := Numeral(n / 10), n % 10;
      NumberOfNumeral(n / 10);
      assert '0' + digit as char == (48 + digit) as char;
      assert Numeral(n)[..|front|] == front;
    }
  }

  lemma {:induction false} LeadingOf(s: string, t: string)
    requires (forall i :: 0 <= i < |s| ==> Letter(s[i])) && (t == "" || !Letter(t[0]))
    ensures LeadingLetters(s + t) == |s|
  {
    if s == "" {
      assert s + t == t;
    } else {
      assert (s + t)[1..] == s[1..] + t;
      LeadingOf(s[1..], t);
    }
  }

  /** Writing a position and reading it back gives it again, for every column of at most four letters. */
  lemma PositionRoundTrip(row: nat, column: nat)
    requires row > 0 && column > 0 && |NameOf(column)| <= 4
    ensures Position(NameOf(column) + Numeral(row)) == Some((row, column))
  {
    var name, digits := NameOf(column), Numeral(row);
    NameIsLetters(column);
    NumberOfNumeral(row);
    LeadingOf(name, digits);
    IndexOfName(column);
    var ref := name + digits;
    assert ref[..|name|] == name && ref[|name|..] == digits;
    forall i | |name| <= i < |ref|
      ensures DigitChar(ref[i])
    {
      assert ref[i] == digits[i - |name|];
    }
  }

  /** A reference: one to four capital letters, and a number without leading zero. */
  predicate WellWritten(letters: string, digits: string) {
    && 1 <= |letters| <= 4 && (forall i :: 0 <= i < |letters| ==> 'A' <= letters[i] <= 'Z')
    && digits != "" && digits[0] != '0' && forall i :: 0 <= i < |digits| ==> '0' <= digits[i] <= '9'
  }

  lemma PositionOf(letters: string, digits: string)
    requires WellWritten(letters, digits)
    ensures Position(letters + digits) == Some((Number(digits), ColumnOf(letters)))
  {
    LeadingOf(letters, digits);
    var ref := letters + digits;
    assert ref[..|letters|] == letters && ref[|letters|..] == digits;
    forall i | |letters| <= i < |ref|
      ensures DigitChar(ref[i])
    {
      assert ref[i] == digits[i - |letters|];
    }
  }

  /** Exactly the well-written references have a position. */
  lemma PositionsExactly(ref: string)
    ensures Position(ref).Some? <==> exists letters, digits :: ref == letters + digits && WellWritten(letters, digits)
  {
    if Position(ref).Some? {
      var n := LeadingLetters(ref);
      assert ref == ref[..n] + ref[n..];
      assert WellWritten(ref[..n], ref[n..]);
    }
    if letters, digits :| ref == letters + digits && WellWritten(letters, digits) {
      PositionOf(letters, digits);
    }
  }

  /** The columns A to CV. */
  predicate FirstHundred(letters: string) {
    |letters| == 1 || (|letters| == 2 && (letters[0] < 'C' || (letters[0] == 'C' && letters[1] <= 'V')))
  }

  lemma {:induction false} LongNamesAreLate(letters: string)
    requires Letters(letters)
    ensures ColumnOf(letters) >= |letters| && (|letters| > 1 ==> ColumnOf(letters) > 26) && (|letters| > 2 ==> ColumnOf(letters) > 702)
  {
    if |letters| > 1 {
      LongNamesAreLate(letters[..|letters| - 1]);
    }
  }

  lemma FirstHundredColumns(letters: string)
    requires Letters(letters)
    ensures ColumnOf(letters) <= 100 <==> FirstHundred(letters)
  {
    LongNamesAreLate(letters);
    if |letters| == 2 {
      var front := letters[..1];
      assert ColumnOf(letters) == ColumnOf(front) * 26 + (letters[1] as int - 64);
      assert ColumnOf(front) == ColumnOf(front[..0]) * 26 + (letters[0] as int - 64);
    }
  }
}
