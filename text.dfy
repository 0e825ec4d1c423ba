/** Character-sequence helpers the page scripts and the bundler configuration
    rely on: `String.prototype.split` on a one-character separator followed by
    taking the last field (what `.pop()` returns), `String(n)` for integers of magnitude below 10^21 and
    `padStart` with a fill character. */
module Text {

  /** The string `fields[0] + sep + fields[1] + ... + sep + fields[n-1]`. */
  function Join(fields: seq<string>, sep: char): string
    requires |fields| >= 1
  {
    if |fields| == 1 then fields[0] else fields[0] + [sep] + Join(fields[1..], sep)
  }

  /** `s.split(sep)` for a one-character separator: the maximal runs of `s`
      between occurrences of `sep`, including empty ones; never an empty list. */
  function Split(s: string, sep: char): (fields: seq<string>)
    ensures |fields| >= 1
    ensures Join(fields, sep) == s
    ensures forall k :: 0 <= k < |fields| ==> sep !in fields[k]
  {
    if s == [] then [[]]
    else
      var rest := Split(s[1..], sep);
      if s[0] == sep then
        assert ([[]] + rest)[1..] == rest;
        [[]] + rest
      else
        var fields := [[s[0]] + rest[0]] + rest[1..];
        assert fields[1..] == rest[1..];
        assert |rest| > 1 ==> Join(rest, sep) == rest[0] + [sep] + Join(rest[1..], sep);
        fields
  }

  /** The last field of a split list, i.e. `s.split(sep).pop()`. */
  function LastField(s: string, sep: char): (field: string)
    ensures sep !in field
    ensures |field| <= |s| && s[|s| - |field|..] == field
    ensures |field| == |s| || s[|s| - |field| - 1] == sep
    ensures sep !in s ==> field == s
  {
    var fields := Split(s, sep);
    JoinEndsWithLast(fields, sep);
    fields[|fields| - 1]
  }

  /** The joined string ends with the last field, and when there is more than
      one field, a separator stands right before it. */
  lemma {:induction false} JoinEndsWithLast(fields: seq<string>, sep: char)
    requires |fields| >= 1
    ensures var j, l := Join(fields, sep), fields[|fields| - 1];
            |l| <= |j| && j[|j| - |l|..] == l &&
            (|fields| == 1 ==> j == l) &&
            (|fields| > 1 ==> |l| < |j| && j[|j| - |l| - 1] == sep)
  {
    if |fields| > 1 {
      JoinEndsWithLast(fields[1..], sep);
    }
  }

  /** Splitting is the only way to cut `s` into separator-free fields: any
      list of fields without `sep` whose join is `s` is `Split(s, sep)`. */
  lemma {:induction false} SplitUnique(s: string, sep: char, fields: seq<string>)
    requires |fields| >= 1 && Join(fields, sep) == s
    requires forall k :: 0 <= k < |fields| ==> sep !in fields[k]
    ensures fields == Split(s, sep)
    decreases |s|
  {
    var f0 := fields[0];
    if |fields| == 1 {
      if s != [] {
        var rest := Split(s[1..], sep);
        assert s[0] == f0[0] && s[0] != sep;
        SplitUnique(s[1..], sep, [f0[1..]]);
      }
    } else if f0 == [] {
      assert s == [sep] + Join(fields[1..], sep);
      assert s[1..] == Join(fields[1..], sep);
      SplitUnique(s[1..], sep, fields[1..]);
      assert fields == [[]] + fields[1..];
    } else {
      var tail := [f0[1..]] + fields[1..];
      assert tail[1..] == fields[1..];
      assert s[0] == f0[0] && s[0] != sep;
      assert s[1..] == f0[1..] + [sep] + Join(fields[1..], sep);
      assert Join(tail, sep) == s[1..];
      SplitUnique(s[1..], sep, tail);
      assert f0 == [s[0]] + f0[1..];
      assert fields == [[s[0]] + tail[0]] + tail[1..];
    }
  }

  /** The character for a decimal digit. */
  function DigitChar(d: nat): (c: char)
    requires d < 10
    ensures '0' <= c <= '9' && c as int - '0' as int == d
  {
    ('0' as int + d) as char
  }

  predicate IsDigits(s: string) {
    forall k :: 0 <= k < |s| ==> '0' <= s[k] <= '9'
  }

  /** The number a string of decimal digits denotes (the empty string denotes 0). */
  function DecimalValue(s: string): nat
    requires IsDigits(s)
  {
    if s == [] then 0
    else 10 * DecimalValue(s[..|s| - 1]) + (s[|s| - 1] as int - '0' as int)
  }

  /** `String(n)` for 0 <= n < 10^21 (from 10^21 on JavaScript prints exponent
      notation): its decimal digits, no leading zero. */
  function NatToString(n: nat): (s: string)
    ensures |s| >= 1 && IsDigits(s)
    ensures s[0] == '0' ==> n == 0
    ensures n < 10 <==> |s| == 1
    ensures 10 <= n < 100 ==> |s| == 2
  {
    if n < 10 then [DigitChar(n)] else NatToString(n / 10) + [DigitChar(n % 10)]
  }

  /** Reading the digits back gives the number: `String(n)` is lossless. */
  lemma {:induction false} NatToStringRoundTrip(n: nat)
    ensures DecimalValue(NatToString(n)) == n
  {
    if n >= 10 {
      var s := NatToString(n);
      NatToStringRoundTrip(n / 10);
      assert s[..|s| - 1] == NatToString(n / 10);
    }
  }

  /** `String(i)` for |i| < 10^21: a minus sign before the digits of `-i` when
      negative. A date's year, month and day are far below that bound. */
  function IntToString(i: int): (s: string)
    ensures |s| >= 1
    ensures s[0] == '-' <==> i < 0
    ensures var digits := if i < 0 then s[1..] else s;
            IsDigits(digits) && DecimalValue(digits) == (if i < 0 then -i else i)
    ensures var digits := if i < 0 then s[1..] else s;
            |digits| >= 1 && (digits[0] == '0' ==> i == 0)
  {
    var n: nat := if i < 0 then -i else i;
    var digits := NatToString(n);
    NatToStringRoundTrip(n);
    if i < 0 then
      assert ("-" + digits)[1..] == digits;
      "-" + digits
    else digits
  }

  /** `s.padStart(len, [fill])`: `s` prefixed with copies of `fill` up to length `len`. */
  function PadStart(s: string, len: nat, fill: char): (r: string)
    ensures |r| == if |s| >= len then |s| else len
    ensures r[|r| - |s|..] == s
    ensures forall k :: 0 <= k < |r| - |s| ==> r[k] == fill
    decreases len - |s|
  {
    if |s| >= len then s
    else
      var r := PadStart([fill] + s, len, fill);
      assert r[|r| - |s|..] == ([fill] + s)[1..];
      r
  }

  /** A leading zero does not change the number a digit string denotes. */
  lemma {:induction false} LeadingZeroValue(s: string)
    requires IsDigits(s)
    ensures IsDigits(['0'] + s) && DecimalValue(['0'] + s) == DecimalValue(s)
  {
    if s != [] {
      LeadingZeroValue(s[..|s| - 1]);
      assert (['0'] + s)[..|s|] == ['0'] + s[..|s| - 1];
    }
  }

  /** Padding digits with '0' keeps them digits and keeps their value. */
  lemma {:induction false} ZeroPadValue(s: string, len: nat)
    requires IsDigits(s)
    ensures IsDigits(PadStart(s, len, '0'))
    ensures DecimalValue(PadStart(s, len, '0')) == DecimalValue(s)
    decreases len - |s|
  {
    if |s| < len {
      LeadingZeroValue(s);
      ZeroPadValue(['0'] + s, len);
    }
  }
}
