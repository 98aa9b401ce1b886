/** Text the services derive from cells: decimal numerals, the A1-style cell
    label (column letters followed by the one-based row number) and the
    string form of a cell value. The numeral of a natural number, the column
    letters and the A1 label each come with a decoder and a round-trip lemma,
    so a label names exactly one address. */
module CellText {
  import opened Types

  predicate IsDigit(ch: char) { '0' <= ch <= '9' }

  predicate IsUpper(ch: char) { 'A' <= ch <= 'Z' }

  predicate AllDigits(s: string) { forall i :: 0 <= i < |s| ==> IsDigit(s[i]) }

  predicate AllUpper(s: string) { forall i :: 0 <= i < |s| ==> IsUpper(s[i]) }

  function DigitChar(d: nat): (ch: char)
    requires d < 10
    ensures IsDigit(ch) && ch as int - '0' as int == d
  {
    ('0' as int + d) as char
  }

  /** The decimal numeral of `n`, without leading zeros. */
  function NatToString(n: nat): (s: string)
    ensures |s| >= 1 && AllDigits(s)
    ensures s[0] == '0' <==> n == 0
    decreases n
  {
    if n < 10 then [DigitChar(n)] else NatToString(n / 10) + [DigitChar(n % 10)]
  }

  /** The value of a string of decimal digits (0 for the empty string). */
  function ParseDecimal(s: string): nat
    requires AllDigits(s)
  {
    if s == [] then 0
    else ParseDecimal(s[..|s| - 1]) * 10 + (s[|s| - 1] as int - '0' as int)
  }

  lemma {:induction false} ParseNatToString(n: nat)
    ensures ParseDecimal(NatToString(n)) == n
    decreases n
  {
    if n >= 10 {
      var s := NatToString(n);
      ParseNatToString(n / 10);
      assert s[..|s| - 1] == NatToString(n / 10);
    }
  }

  /** `String(n)` for an integer number. */
  function IntToString(i: int): string
  {
    if i < 0 then "-" + NatToString(-i) else NatToString(i)
  }

  /** `String(v)`: how a cell value is written into a header or a description. */
  function ValueToString(v: Value): string
  {
    match v
    case Str(s) => s
    case Num(n) => IntToString(n)
    case Bool(b) => if b then "true" else "false"
  }

  /** Column letters of a zero-based column: A..Z, then AA, AB, ... (bijective base 26). */
  function ColumnLetters(c: nat): (s: string)
    ensures |s| >= 1 && AllUpper(s)
    decreases c
  {
    if c < 26 then [('A' as int + c) as char]
    else ColumnLetters(c / 26 - 1) + [('A' as int + c % 26) as char]
  }

  /** The one-based column number spelled by a string of column letters. */
  function LettersValue(s: string): int
  {
    if s == [] then 0
    else LettersValue(s[..|s| - 1]) * 26 + (s[|s| - 1] as int - 'A' as int + 1)
  }

  lemma {:induction false} LettersOfColumn(c: nat)
    ensures LettersValue(ColumnLetters(c)) == c + 1
    decreases c
  {
    if c >= 26 {
      var s := ColumnLetters(c);
      var q: nat := c / 26 - 1;
      LettersOfColumn(q);
      assert s[..|s| - 1] == ColumnLetters(q);
      assert LettersValue(s) == (q + 1) * 26 + c % 26 + 1;
    }
  }

  /** The A1 label of a cell address (`encode_cell`). */
  function EncodeCell(a: CellAddress): string
  {
    ColumnLetters(a.c) + NatToString(a.r + 1)
  }

  /** Length of the run of upper-case letters that starts the string. */
  function LeadingLetters(s: string): (k: nat)
    ensures k <= |s| && AllUpper(s[..k])
    ensures k < |s| ==> !IsUpper(s[k])
  {
    if s == [] || !IsUpper(s[0]) then 0 else 1 + LeadingLetters(s[1..])
  }

  /** The address an A1 label names, if it is one. */
  function DecodeCell(text: string): Option<CellAddress>
  {
    var k := LeadingLetters(text);
    var digits := text[k..];
    if k == 0 || digits == [] || !AllDigits(digits) then None
    else
      var row := ParseDecimal(digits);
      var col := LettersValue(text[..k]);
      if row < 1 || col < 1 then None else Some(CellAddress(row - 1, col - 1))
  }

  lemma {:induction false} LeadingLettersOfLabel(letters: string, rest: string)
    requires AllUpper(letters)
    requires rest != [] && !IsUpper(rest[0])
    ensures LeadingLetters(letters + rest) == |letters|
    decreases |letters|
  {
    if letters != [] {
      assert (letters + rest)[1..] == letters[1..] + rest;
      LeadingLettersOfLabel(letters[1..], rest);
    } else {
      assert letters + rest == rest;
    }
  }

  /** Decoding a label gives back the address it was made from. */
  lemma EncodeDecodeCell(a: CellAddress)
    ensures DecodeCell(EncodeCell(a)) == Some(a)
  {
    var letters, digits := ColumnLetters(a.c), NatToString(a.r + 1);
    var text := letters + digits;
    LeadingLettersOfLabel(letters, digits);
    assert text[..|letters|] == letters;
    assert text[|letters|..] == digits;
    ParseNatToString(a.r + 1);
    LettersOfColumn(a.c);
  }

  /** Distinct addresses have distinct labels. */
  lemma EncodeCellInjective(a: CellAddress, b: CellAddress)
    requires EncodeCell(a) == EncodeCell(b)
    ensures a == b
  {
    EncodeDecodeCell(a);
    EncodeDecodeCell(b);
  }

  /** The placeholder label of a sheet-level difference names no cell. */
  lemma NotApplicableIsNoLabel()
    ensures DecodeCell("N/A") == None
  {
    var s := "N/A";
    assert !IsUpper(s[1..][0]);
    assert LeadingLetters(s) == 1;
    assert !IsDigit(s[1..][0]);
  }
}
