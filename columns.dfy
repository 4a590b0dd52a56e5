/**
 * Column names as openpyxl writes them: `get_column_letter` and, on non-empty names of capital
 * letters, its inverse `column_index_from_string`.
 */
module Columns {

  /** The capital letter for a base-26 digit 0..25. */
  function Letter(d: nat): (c: char)
    requires d < 26
    ensures 'A' <= c <= 'Z'
  {
    ('A' as int + d) as char
  }

  /** `column_index_from_string`: the number a column name stands for, `A` = 1 ... `Z` = 26, `AA` = 27. */
  function ColumnNumber(name: string): int
  {
    if |name| == 0 then 0
    else 26 * ColumnNumber(name[..|name| - 1]) + (name[|name| - 1] as int - 'A' as int + 1)
  }

  /**
   * `get_column_letter(n)`: bijective base 26. Its partner is `ColumnNumber`, which reads the
   * number back, so distinct columns never share a name.
   */
  function ColumnLetter(n: nat): (name: string)
    requires n >= 1
    ensures |name| >= 1
    ensures forall k :: 0 <= k < |name| ==> 'A' <= name[k] <= 'Z'
    ensures ColumnNumber(name) == n
    decreases n
  {
    if n <= 26 then
      [Letter(n - 1)]
    else
      var prefix := ColumnLetter((n - 1) / 26);
      var name := prefix + [Letter((n - 1) % 26)];
      assert name[..|name| - 1] == prefix;
      name
  }

  /** A non-empty name of capital letters stands for a column number of at least 1. */
  lemma {:induction false} ColumnNumberPositive(name: string)
    requires |name| >= 1
    requires forall k :: 0 <= k < |name| ==> 'A' <= name[k] <= 'Z'
    ensures ColumnNumber(name) >= 1
    decreases |name|
  {
    var prefix := name[..|name| - 1];
    if |prefix| >= 1 {
      assert forall k :: 0 <= k < |prefix| ==> prefix[k] == name[k];
      ColumnNumberPositive(prefix);
    }
  }

  /** The last base-26 digit and the prefix are read back off `26 * q + d + 1`. */
  lemma LastDigit(q: int, d: int)
    requires q >= 1 && 0 <= d < 26
    ensures (26 * q + d + 1 - 1) / 26 == q && (26 * q + d + 1 - 1) % 26 == d
  {
  }

  /**
   * `get_column_letter(column_index_from_string(name))` gives back `name` for every non-empty
   * name of capital letters, so `ColumnNumber` is one-to-one on such names and the two
   * functions are inverse.
   */
  lemma {:induction false} LetterOfNumber(name: string)
    requires |name| >= 1
    requires forall k :: 0 <= k < |name| ==> 'A' <= name[k] <= 'Z'
    ensures ColumnNumber(name) >= 1 && ColumnLetter(ColumnNumber(name)) == name
    decreases |name|
  {
    ColumnNumberPositive(name);
    var prefix := name[..|name| - 1];
    var d := name[|name| - 1] as int - 'A' as int;
    assert Letter(d) == name[|name| - 1];
    if |prefix| == 0 {
      assert name == [name[0]];
    } else {
      assert forall k :: 0 <= k < |prefix| ==> prefix[k] == name[k];
      LetterOfNumber(prefix);
      var q := ColumnNumber(prefix);
      LastDigit(q, d);
      assert ColumnNumber(name) == 26 * q + d + 1 > 26;
      assert ColumnLetter(ColumnNumber(name)) == ColumnLetter(q) + [Letter(d)];
      assert name == prefix + [name[|name| - 1]];
    }
  }

  /** Different column numbers get different names. */
  lemma ColumnLetterInjective(m: nat, n: nat)
    requires m >= 1 && n >= 1 && m != n
    ensures ColumnLetter(m) != ColumnLetter(n)
  {
  }
}
