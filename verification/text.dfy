/** The host string operations the catalogue engine relies on: lower-casing,
    substring search, `split`, and `parseInt` of a decimal or 0x-hexadecimal prefix. */
module Text {
  import opened Basics

  function LowerChar(c: char): char {
    if 'A' <= c <= 'Z' then (c as int + 32) as char else c
  }

  /** `String.prototype.toLowerCase`, on the ASCII letters. */
  function Lower(s: string): (r: string)
    ensures |r| == |s|
    ensures forall i :: 0 <= i < |s| ==> r[i] == LowerChar(s[i])
  {
    seq(|s|, i requires 0 <= i < |s| => LowerChar(s[i]))
  }

  /** Lower-casing twice is lower-casing once. */
  lemma LowerIdempotent(s: string)
    ensures Lower(Lower(s)) == Lower(s)
  {
  }

  /** `needle` sits in `hay` starting at index `i`. */
  predicate OccursAt(hay: string, needle: string, i: int) {
    0 <= i && i + |needle| <= |hay| && hay[i..i + |needle|] == needle
  }

  /** `String.prototype.includes`: `needle` is a prefix of some suffix of `hay`. */
  predicate Contains(hay: string, needle: string)
    ensures Contains(hay, needle) ==> |needle| <= |hay|
    ensures |needle| == 0 ==> Contains(hay, needle)
    decreases |hay|
  {
    needle <= hay || (|hay| > 0 && Contains(hay[1..], needle))
  }

  /** The scanning definition agrees with "there is a position where the needle occurs". */
  lemma {:induction false} ContainsIffOccurs(hay: string, needle: string)
    ensures Contains(hay, needle) <==> exists i :: OccursAt(hay, needle, i)
    decreases |hay|
  {
    if needle <= hay {
      assert OccursAt(hay, needle, 0);
    } else if |hay| > 0 {
      ContainsIffOccurs(hay[1..], needle);
      if Contains(hay[1..], needle) {
        var i :| OccursAt(hay[1..], needle, i);
        SliceOfTail(hay, i, i + |needle|);
        assert OccursAt(hay, needle, i + 1);
      }
      if i :| OccursAt(hay, needle, i) {
        if i == 0 {
          assert false;
        }
        SliceOfTail(hay, i - 1, i - 1 + |needle|);
        assert OccursAt(hay[1..], needle, i - 1);
      }
    } else {
      if i :| OccursAt(hay, needle, i) {
        assert false;
      }
    }
  }

  lemma SliceOfTail(s: string, i: int, j: int)
    requires 0 <= i <= j && j + 1 <= |s|
    ensures s[1..][i..j] == s[i + 1..j + 1]
  {
  }

  /** `String.prototype.split` on a one-character separator: the pieces between
      separators, always at least one (an empty string gives `[""]`). */
  function Split(s: string, sep: char): (parts: seq<string>)
    ensures |parts| >= 1
    ensures forall i :: 0 <= i < |parts| ==> sep !in parts[i]
    decreases |s|
  {
    if |s| == 0 then [""]
    else
      var rest := Split(s[1..], sep);
      if s[0] == sep then [""] + rest
      else [[s[0]] + rest[0]] + rest[1..]
  }

  /** `Array.prototype.join` with a one-character separator. */
  function Join(parts: seq<string>, sep: char): string
    requires |parts| >= 1
    decreases |parts|
  {
    if |parts| == 1 then parts[0] else parts[0] + [sep] + Join(parts[1..], sep)
  }

  /** Joining the pieces of a split restores the string. */
  lemma {:induction false} JoinSplit(s: string, sep: char)
    ensures Join(Split(s, sep), sep) == s
    decreases |s|
  {
    if |s| > 0 {
      var rest := Split(s[1..], sep);
      JoinSplit(s[1..], sep);
      assert [s[0]] + s[1..] == s;
      if s[0] == sep {
        JoinSplitSeparatorHead(s, sep);
      } else {
        JoinSplitOrdinaryHead(s, sep);
      }
    }
  }

  lemma JoinSplitSeparatorHead(s: string, sep: char)
    requires |s| > 0 && s[0] == sep
    requires Join(Split(s[1..], sep), sep) == s[1..]
    ensures Join(Split(s, sep), sep) == s
  {
    var parts := Split(s, sep);
    assert parts == [""] + Split(s[1..], sep);
    assert parts[1..] == Split(s[1..], sep);
    assert [s[0]] + s[1..] == s;
  }

  lemma JoinSplitOrdinaryHead(s: string, sep: char)
    requires |s| > 0 && s[0] != sep
    requires Join(Split(s[1..], sep), sep) == s[1..]
    ensures Join(Split(s, sep), sep) == s
  {
    var rest := Split(s[1..], sep);
    var parts := Split(s, sep);
    assert parts == [[s[0]] + rest[0]] + rest[1..];
    if |rest| == 1 {
      assert [s[0]] + s[1..] == s;
    } else {
      assert parts[1..] == rest[1..];
      calc {
        Join(parts, sep);
        ([s[0]] + rest[0]) + [sep] + Join(rest[1..], sep);
        [s[0]] + (rest[0] + [sep] + Join(rest[1..], sep));
        [s[0]] + Join(rest, sep);
        [s[0]] + s[1..];
        s;
      }
    }
  }

  /** A string without the separator splits into itself alone. */
  lemma {:induction false} SplitNoSeparator(s: string, sep: char)
    requires sep !in s
    ensures Split(s, sep) == [s]
    decreases |s|
  {
    if |s| > 0 {
      assert sep !in s[1..];
      SplitNoSeparator(s[1..], sep);
      assert [s[0]] + s[1..] == s;
    }
  }

  /** A separator splits the text around it independently. */
  lemma {:induction false} SplitConcat(a: string, sep: char, b: string)
    ensures Split(a + [sep] + b, sep) == Split(a, sep) + Split(b, sep)
    decreases |a|
  {
    var s := a + [sep] + b;
    if |a| == 0 {
      assert s[1..] == b;
    } else {
      assert s[0] == a[0];
      assert s[1..] == a[1..] + [sep] + b;
      SplitConcat(a[1..], sep, b);
    }
  }

  /** A separator-free head followed by the separator becomes one piece of its own. */
  lemma SplitAfterHead(a: string, sep: char, b: string)
    requires sep !in a
    ensures Split(a + [sep] + b, sep) == [a] + Split(b, sep)
  {
    SplitConcat(a, sep, b);
    SplitNoSeparator(a, sep);
  }

  /** Splitting a join of separator-free pieces gives the pieces back. */
  lemma {:induction false} SplitJoin(parts: seq<string>, sep: char)
    requires |parts| >= 1
    requires forall i :: 0 <= i < |parts| ==> sep !in parts[i]
    ensures Split(Join(parts, sep), sep) == parts
    decreases |parts|
  {
    if |parts| == 1 {
      SplitNoSeparator(parts[0], sep);
    } else {
      SplitJoin(parts[1..], sep);
      SplitAfterHead(parts[0], sep, Join(parts[1..], sep));
      assert [parts[0]] + parts[1..] == parts;
    }
  }

  /** `s.split(sep).pop()`: the text after the last separator, or all of `s` when there is none. */
  function LastSegment(s: string, sep: char): (r: string)
    ensures sep !in r
    ensures |r| <= |s| && r == s[|s| - |r|..]
    ensures |r| < |s| ==> s[|s| - |r| - 1] == sep
  {
    var parts := Split(s, sep);
    LastSegmentFacts(s, sep);
    parts[|parts| - 1]
  }

  /** The last piece of a join follows the last separator. */
  lemma {:induction false} JoinLast(parts: seq<string>, sep: char)
    requires |parts| >= 2
    ensures Join(parts, sep) == Join(parts[..|parts| - 1], sep) + [sep] + parts[|parts| - 1]
    decreases |parts|
  {
    var init := parts[..|parts| - 1];
    if |parts| > 2 {
      JoinLast(parts[1..], sep);
      assert parts[1..][..|parts| - 2] == init[1..];
      assert init[0] == parts[0];
    }
  }

  lemma LastSegmentFacts(s: string, sep: char)
    ensures var parts := Split(s, sep);
            var r := parts[|parts| - 1];
            |r| <= |s| && r == s[|s| - |r|..] && (|r| < |s| ==> s[|s| - |r| - 1] == sep)
  {
    var parts := Split(s, sep);
    JoinSplit(s, sep);
    if |parts| >= 2 {
      JoinLast(parts, sep);
      var r := parts[|parts| - 1];
      var head := Join(parts[..|parts| - 1], sep);
      assert s == head + [sep] + r;
      assert s[|s| - |r|..] == r;
    }
  }

  /** The last segment is determined by the last separator. */
  lemma LastSegmentAfterSeparator(a: string, sep: char, b: string)
    requires sep !in b
    ensures LastSegment(a + [sep] + b, sep) == b
  {
    SplitConcat(a, sep, b);
    SplitNoSeparator(b, sep);
  }

  /** A string without the separator is its own last segment. */
  lemma LastSegmentWhole(s: string, sep: char)
    requires sep !in s
    ensures LastSegment(s, sep) == s
  {
    SplitNoSeparator(s, sep);
  }

  predicate IsDigit(c: char) {
    '0' <= c <= '9'
  }

  /** The two radixes `parseInt` chooses between when it is given none. */
  datatype Radix = Decimal | Hexadecimal {
    function Base(): nat {
      if this == Decimal then 10 else 16
    }
  }

  /** A digit of the radix: 0-9, and for hexadecimal also a-f in either case. */
  predicate IsDigitIn(c: char, radix: Radix) {
    IsDigit(c) || (radix == Hexadecimal && ('a' <= c <= 'f' || 'A' <= c <= 'F'))
  }

  function DigitValue(c: char, radix: Radix): (v: nat)
    requires IsDigitIn(c, radix)
    ensures v < radix.Base()
  {
    if IsDigit(c) then c as int - '0' as int
    else if 'a' <= c <= 'f' then c as int - 'a' as int + 10
    else c as int - 'A' as int + 10
  }

  /** Number of leading digits of the radix. */
  function LeadingDigits(s: string, radix: Radix): (n: nat)
    ensures n <= |s|
    ensures forall i :: 0 <= i < n ==> IsDigitIn(s[i], radix)
    ensures n < |s| ==> !IsDigitIn(s[n], radix)
    decreases |s|
  {
    if |s| > 0 && IsDigitIn(s[0], radix) then 1 + LeadingDigits(s[1..], radix) else 0
  }

  /** Value of a string of digits in the radix, most significant first. */
  function DigitsValue(d: string, radix: Radix): nat
    requires forall i :: 0 <= i < |d| ==> IsDigitIn(d[i], radix)
    decreases |d|
  {
    if |d| == 0 then 0
    else DigitsValue(d[..|d| - 1], radix) * radix.Base() + DigitValue(d[|d| - 1], radix)
  }

  /** The "0x" or "0X" with which `parseInt` switches to hexadecimal. */
  predicate HexPrefix(s: string) {
    |s| >= 2 && s[0] == '0' && (s[1] == 'x' || s[1] == 'X')
  }

  /** The value of the leading digits, `None` for NaN when there are none. */
  function ParseDigits(s: string, radix: Radix): (r: Option<int>)
    ensures r.Some? <==> |s| > 0 && IsDigitIn(s[0], radix)
    ensures r.Some? ==> r.value >= 0
  {
    var n := LeadingDigits(s, radix);
    if n == 0 then None else Some(DigitsValue(s[..n], radix))
  }

  /** `parseInt(s)` with no radix: hexadecimal after a "0x" prefix, decimal
      otherwise; the leading digits are read and the rest ignored, and text
      with no digit where one is due is NaN (`None`). */
  function ParseInt(s: string): (r: Option<int>)
    ensures HexPrefix(s) ==> (r.Some? <==> |s| > 2 && IsDigitIn(s[2], Hexadecimal))
    ensures !HexPrefix(s) ==> (r.Some? <==> |s| > 0 && IsDigit(s[0]))
    ensures r.Some? ==> r.value >= 0
  {
    if HexPrefix(s) then ParseDigits(s[2..], Hexadecimal) else ParseDigits(s, Decimal)
  }

  function DigitChar(d: nat): char
    requires d < 10
  {
    ('0' as int + d) as char
  }

  /** Decimal rendering of a natural number, without leading zeros. */
  function NatToString(n: nat): (r: string)
    ensures |r| >= 1
    ensures forall i :: 0 <= i < |r| ==> IsDigit(r[i])
    ensures n < 10 <==> |r| == 1
    decreases n
  {
    if n < 10 then [DigitChar(n)] else NatToString(n / 10) + [DigitChar(n % 10)]
  }

  lemma {:induction false} DigitsValueOfNatToString(n: nat)
    ensures DigitsValue(NatToString(n), Decimal) == n
    decreases n
  {
    var r := NatToString(n);
    if n >= 10 {
      DigitsValueOfNatToString(n / 10);
      assert r[..|r| - 1] == NatToString(n / 10);
    }
  }

  /** `parseInt` reads back a rendered number, whatever non-digit text follows it,
      except that "0" followed by an "x" is taken for a hexadecimal prefix. */
  lemma ParseIntNatToString(n: nat, tail: string)
    requires |tail| == 0 || !IsDigit(tail[0])
    requires n > 0 || |tail| == 0 || (tail[0] != 'x' && tail[0] != 'X')
    ensures ParseInt(NatToString(n) + tail) == Some(n)
  {
    var d := NatToString(n);
    var s := d + tail;
    assert !HexPrefix(s) by {
      if |d| == 1 && n > 0 {
        assert s[0] == DigitChar(n);
      }
    }
    LeadingDigitsOfDigitsThenTail(d, tail, Decimal);
    assert s[..|d|] == d;
    DigitsValueOfNatToString(n);
  }

  /** `parseInt` reads hexadecimal digits after a "0x" prefix, up to the first
      character that is not one. */
  lemma ParseIntHex(s: string, d: string, tail: string)
    requires HexPrefix(s) && s[2..] == d + tail
    requires |d| > 0 && forall i :: 0 <= i < |d| ==> IsDigitIn(d[i], Hexadecimal)
    requires |tail| == 0 || !IsDigitIn(tail[0], Hexadecimal)
    ensures ParseInt(s) == Some(DigitsValue(d, Hexadecimal))
  {
    ParseDigitsThenTail(d, tail, Hexadecimal);
  }

  /** The digits before the first non-digit are what is read. */
  lemma ParseDigitsThenTail(d: string, tail: string, radix: Radix)
    requires |d| > 0 && forall i :: 0 <= i < |d| ==> IsDigitIn(d[i], radix)
    requires |tail| == 0 || !IsDigitIn(tail[0], radix)
    ensures ParseDigits(d + tail, radix) == Some(DigitsValue(d, radix))
  {
    LeadingDigitsOfDigitsThenTail(d, tail, radix);
    assert (d + tail)[..|d|] == d;
  }

  /** "0x10" is sixteen, and a bare "0x" is not a number. */
  lemma ParseIntHexExamples()
    ensures ParseInt("0x") == None
    ensures ParseInt("0x10") == Some(16)
  {
    assert "0x10"[2..] == "10" + "";
    ParseIntHex("0x10", "10", "");
    assert "10"[..1] == "1" && "1"[..0] == "";
  }

  lemma {:induction false} LeadingDigitsOfDigitsThenTail(d: string, tail: string, radix: Radix)
    requires forall i :: 0 <= i < |d| ==> IsDigitIn(d[i], radix)
    requires |tail| == 0 || !IsDigitIn(tail[0], radix)
    ensures LeadingDigits(d + tail, radix) == |d|
    decreases |d|
  {
    if |d| > 0 {
      assert (d + tail)[1..] == d[1..] + tail;
      LeadingDigitsOfDigitsThenTail(d[1..], tail, radix);
    } else {
      assert d + tail == tail;
    }
  }
}
