/**
 * The string operations the name classifier relies on, each stated as Python defines it:
 * the substring test `t in s`, `s.split(sep)` for a one-character separator, and
 * `s.isalnum()` over the ASCII alphabet.
 */
module Text {
  import opened Sequences

  /** `t` sits in `s` starting at index `i`. */
  ghost predicate OccursAt(t: string, s: string, i: int)
  {
    0 <= i && i + |t| <= |s| && s[i..i + |t|] == t
  }

  /** Reference meaning of Python's `t in s`: `t` is a contiguous piece of `s`. */
  ghost predicate Occurs(t: string, s: string)
  {
    exists i :: OccursAt(t, s, i)
  }

  /** An occurrence in `s` is either at its head or an occurrence in its tail, shifted by one. */
  lemma OccursHeadOrTail(t: string, s: string)
    requires |s| > 0
    ensures Occurs(t, s) <==> OccursAt(t, s, 0) || Occurs(t, s[1..])
  {
    if Occurs(t, s) && !OccursAt(t, s, 0) {
      var i :| OccursAt(t, s, i);
      assert s[1..][i - 1..i - 1 + |t|] == s[i..i + |t|];
      assert OccursAt(t, s[1..], i - 1);
    }
    if Occurs(t, s[1..]) {
      var i :| OccursAt(t, s[1..], i);
      assert s[1..][i..i + |t|] == s[i + 1..i + 1 + |t|];
      assert OccursAt(t, s, i + 1);
    }
  }

  /** Python's `t in s`, scanning `s` from the left. */
  function Contains(s: string, t: string): (b: bool)
    ensures b <==> Occurs(t, s)
    decreases |s|
  {
    if |t| > |s| then
      false
    else if s[..|t|] == t then
      assert OccursAt(t, s, 0);
      true
    else
      OccursHeadOrTail(t, s);
      Contains(s[1..], t)
  }

  /** `sep.join(parts)`, written out for a one-character separator. */
  function Join(parts: seq<string>, sep: char): string
  {
    if |parts| == 0 then ""
    else if |parts| == 1 then parts[0]
    else parts[0] + [sep] + Join(parts[1..], sep)
  }

  /**
   * Python's `s.split(sep)` with an explicit separator: never empty, the empty string gives
   * `[""]`, and two adjacent separators give an empty piece between them. Its partner is
   * `Join`: the pieces hold no separator and join back to `s` (`SplitJoin` gives the converse).
   */
  function Split(s: string, sep: char): (parts: seq<string>)
    ensures |parts| >= 1
    ensures forall p :: p in parts ==> sep !in p
    ensures Join(parts, sep) == s
    decreases |s|
  {
    var k := IndexOf(s, sep);
    if k == |s| then
      [s]
    else
      var rest := Split(s[k + 1..], sep);
      assert s == s[..k] + [sep] + s[k + 1..];
      [s[..k]] + rest
  }

  /** The first separator of `a + [sep] + b` is the one after `a` when `a` holds none. */
  lemma IndexOfAfterPiece(a: string, sep: char, b: string)
    requires sep !in a
    ensures IndexOf(a + [sep] + b, sep) == |a|
  {
    var s := a + [sep] + b;
    assert s[|a|] == sep;
  }

  /**
   * `Split` undoes `Join`: any non-empty list of separator-free pieces is recovered from
   * their join, so `Split` is the only decomposition with the two properties it ensures.
   */
  lemma {:induction false} SplitJoin(parts: seq<string>, sep: char)
    requires |parts| >= 1
    requires forall p :: p in parts ==> sep !in p
    ensures Split(Join(parts, sep), sep) == parts
    decreases |parts|
  {
    if |parts| == 1 {
      assert parts[0] in parts;
      assert IndexOf(parts[0], sep) == |parts[0]|;
      assert Join(parts, sep) == parts[0];
    } else {
      var tail := Join(parts[1..], sep);
      var s := parts[0] + [sep] + tail;
      assert parts[0] in parts;
      assert Join(parts, sep) == s;
      IndexOfAfterPiece(parts[0], sep, tail);
      assert s[..|parts[0]|] == parts[0];
      assert s[|parts[0]| + 1..] == tail;
      assert Split(s, sep) == [parts[0]] + Split(tail, sep);
      forall p | p in parts[1..] ensures sep !in p {
        assert p in parts;
      }
      SplitJoin(parts[1..], sep);
      assert parts == [parts[0]] + parts[1..];
    }
  }

  /** An ASCII letter or digit. */
  predicate IsAsciiAlnum(c: char)
  {
    'a' <= c <= 'z' || 'A' <= c <= 'Z' || '0' <= c <= '9'
  }

  /** Python's `s.isalnum()` over ASCII: false for the empty string, else every character alphanumeric. */
  function IsAlnum(s: string): (b: bool)
    ensures b <==> |s| > 0 && forall k :: 0 <= k < |s| ==> IsAsciiAlnum(s[k])
    decreases |s|
  {
    if |s| == 0 then false
    else if |s| == 1 then IsAsciiAlnum(s[0])
    else
      assert forall k :: 1 <= k < |s| ==> s[k] == s[1..][k - 1];
      IsAsciiAlnum(s[0]) && IsAlnum(s[1..])
  }
}
