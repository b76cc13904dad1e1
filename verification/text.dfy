/**
  The string operations the globe code relies on: template-literal
  formatting of a non-negative index (`${index}`), `Array.prototype.join`,
  `String.prototype.includes` and `String.prototype.startsWith`.
 */
module Text {

  predicate IsDigit(c: char) {
    '0' <= c <= '9'
  }

  function DigitChar(d: nat): (c: char)
    requires d < 10
    ensures IsDigit(c)
    ensures c as int - '0' as int == d
  {
    "0123456789"[d]
  }

  /** The decimal rendering of `n`, as `${n}` produces it for a non-negative integer. */
  function NatToString(n: nat): (s: string)
    ensures |s| > 0
    ensures forall i :: 0 <= i < |s| ==> IsDigit(s[i])
    ensures (s[0] == '0') == (n == 0)
    decreases n
  {
    if n < 10 then [DigitChar(n)] else NatToString(n / 10) + [DigitChar(n % 10)]
  }

  /** Reads a string of decimal digits back as a number; the partner of `NatToString`. */
  function ParseDecimal(s: string): nat
    decreases |s|
  {
    if |s| == 0 then 0
    else
      var c := s[|s| - 1];
      ParseDecimal(s[..|s| - 1]) * 10 + (if IsDigit(c) then c as int - '0' as int else 0)
  }

  lemma {:induction false} ParseNatToString(n: nat)
    ensures ParseDecimal(NatToString(n)) == n
    decreases n
  {
    if n >= 10 {
      var s := NatToString(n);
      ParseNatToString(n / 10);
      assert s[..|s| - 1] == NatToString(n / 10);
    }
  }

  /** Distinct indices render as distinct strings, so `port-${i}` ids never collide. */
  lemma NatToStringInjective(a: nat, b: nat)
    ensures NatToString(a) == NatToString(b) ==> a == b
  {
    ParseNatToString(a);
    ParseNatToString(b);
  }

  /** Appending distinct suffixes to one prefix gives distinct strings. */
  lemma PrefixedInjective(prefix: string, a: nat, b: nat)
    ensures prefix + NatToString(a) == prefix + NatToString(b) ==> a == b
  {
    if prefix + NatToString(a) == prefix + NatToString(b) {
      assert NatToString(a) == (prefix + NatToString(a))[|prefix|..];
      NatToStringInjective(a, b);
    }
  }

  /** `parts.join(sep)`: the empty list joins to the empty string. */
  function Join(parts: seq<string>, sep: string): (r: string)
    ensures |parts| == 0 ==> r == ""
    ensures |parts| == 1 ==> r == parts[0]
    ensures |parts| > 0 ==> parts[0] <= r
    decreases |parts|
  {
    if |parts| == 0 then ""
    else if |parts| == 1 then parts[0]
    else parts[0] + sep + Join(parts[1..], sep)
  }

  predicate StartsWith(s: string, prefix: string) {
    prefix <= s
  }

  /** `haystack.includes(needle)`: `needle` occurs as a contiguous block of `haystack`. */
  predicate Includes(haystack: string, needle: string)
    decreases |haystack|
  {
    needle <= haystack || (|haystack| > 0 && Includes(haystack[1..], needle))
  }

  /** `needle` occurs in `haystack` starting at position `i`. */
  predicate OccursAt(haystack: string, needle: string, i: int) {
    0 <= i && i + |needle| <= |haystack| && haystack[i..i + |needle|] == needle
  }

  lemma {:induction false} IncludesGivesOccurrence(haystack: string, needle: string)
    requires Includes(haystack, needle)
    ensures exists i :: OccursAt(haystack, needle, i)
    decreases |haystack|
  {
    if needle <= haystack {
      assert OccursAt(haystack, needle, 0);
    } else {
      IncludesGivesOccurrence(haystack[1..], needle);
      var i :| OccursAt(haystack[1..], needle, i);
      assert haystack[i + 1..i + 1 + |needle|] == haystack[1..][i..i + |needle|];
      assert OccursAt(haystack, needle, i + 1);
    }
  }

  lemma {:induction false} OccurrenceGivesIncludes(haystack: string, needle: string, i: int)
    requires OccursAt(haystack, needle, i)
    ensures Includes(haystack, needle)
    decreases |haystack|
  {
    if i == 0 {
      assert haystack[..|needle|] == needle;
    } else {
      assert haystack[i..i + |needle|] == haystack[1..][i - 1..i - 1 + |needle|];
      OccurrenceGivesIncludes(haystack[1..], needle, i - 1);
    }
  }

  /** The recursive `Includes` agrees with the positional definition of a substring. */
  lemma IncludesIffOccurs(haystack: string, needle: string)
    ensures Includes(haystack, needle) <==> exists i :: OccursAt(haystack, needle, i)
  {
    forall i | OccursAt(haystack, needle, i)
      ensures Includes(haystack, needle)
    {
      OccurrenceGivesIncludes(haystack, needle, i);
    }
    if Includes(haystack, needle) {
      IncludesGivesOccurrence(haystack, needle);
    }
  }

  lemma {:induction false} IncludesAfterPrefix(prefix: string, haystack: string, needle: string)
    requires Includes(haystack, needle)
    ensures Includes(prefix + haystack, needle)
    decreases |prefix|
  {
    if |prefix| > 0 {
      IncludesAfterPrefix(prefix[1..], haystack, needle);
      assert (prefix + haystack)[1..] == prefix[1..] + haystack;
    } else {
      assert prefix + haystack == haystack;
    }
  }

  /** Every part of a joined list can be found again in the joined string. */
  lemma {:induction false} JoinIncludesEachPart(parts: seq<string>, sep: string, i: nat)
    requires i < |parts|
    ensures Includes(Join(parts, sep), parts[i])
    decreases |parts|
  {
    if i == 0 {
      assert parts[0] <= Join(parts, sep);
    } else {
      JoinIncludesEachPart(parts[1..], sep, i - 1);
      IncludesAfterPrefix(parts[0] + sep, Join(parts[1..], sep), parts[i]);
    }
  }
}
