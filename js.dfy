/**
 * The few JavaScript runtime behaviours the handlers lean on, stated over
 * Dafny values: optional values, truthiness of string fields, `startsWith`,
 * ASCII case mapping, `String.prototype.split` on one character, the decimal
 * text a template literal gives an integer, and millisecond time units.
 */
module Js {

  datatype Option<+T> = None | Some(value: T)

  /** A string-valued field is truthy when it is present and not empty. */
  predicate Truthy(v: Option<string>)
  {
    v.Some? && v.value != ""
  }

  const MsPerMinute: int := 60000
  const MsPerHour: int := 3600000
  const MsPerDay: int := 86400000

  predicate StartsWith(s: string, prefix: string)
  {
    |prefix| <= |s| && s[..|prefix|] == prefix
  }

  function LowerChar(c: char): char
  {
    if 'A' <= c <= 'Z' then (c as int + 32) as char else c
  }

  function UpperChar(c: char): char
  {
    if 'a' <= c <= 'z' then (c as int - 32) as char else c
  }

  function ToLower(s: string): string
  {
    seq(|s|, i requires 0 <= i < |s| => LowerChar(s[i]))
  }

  function ToUpper(s: string): string
  {
    seq(|s|, i requires 0 <= i < |s| => UpperChar(s[i]))
  }

  // ---------------------------------------------------------------------
  // s.split(sep) for a one-character separator

  function Split(s: string, sep: char): (parts: seq<string>)
    ensures |parts| >= 1
    decreases |s|
  {
    if s == [] then [[]]
    else
      var rest := Split(s[1..], sep);
      if s[0] == sep then [[]] + rest else [[s[0]] + rest[0]] + rest[1..]
  }

  function Join(parts: seq<string>, sep: char): string
    requires |parts| >= 1
  {
    if |parts| == 1 then parts[0] else parts[0] + [sep] + Join(parts[1..], sep)
  }

  /** Splitting loses nothing: joining the parts back gives the string. */
  lemma {:induction false} JoinSplit(s: string, sep: char)
    ensures Join(Split(s, sep), sep) == s
    decreases |s|
  {
    if s != [] {
      var rest := Split(s[1..], sep);
      JoinSplit(s[1..], sep);
      if s[0] == sep {
        assert Split(s, sep)[1..] == rest;
      } else {
        var parts := Split(s, sep);
        if |rest| == 1 {
          assert parts == [[s[0]] + rest[0]];
        } else {
          assert parts[1..] == rest[1..];
          assert Join(rest, sep) == rest[0] + [sep] + Join(rest[1..], sep);
        }
      }
    }
  }

  /** No part contains the separator, and there is more than one part exactly when the separator occurs. */
  lemma {:induction false} SplitParts(s: string, sep: char)
    ensures forall k :: 0 <= k < |Split(s, sep)| ==> sep !in Split(s, sep)[k]
    ensures |Split(s, sep)| > 1 <==> sep in s
    decreases |s|
  {
    if s != [] {
      SplitParts(s[1..], sep);
      assert sep in s <==> s[0] == sep || sep in s[1..] by {
        assert s == [s[0]] + s[1..];
      }
    }
  }

  /** The part after the first separator is the text up to the next one. */
  lemma {:induction false} SplitSecondPart(local: string, middle: string, tail: string, sep: char)
    requires sep !in local && sep !in middle
    requires tail == [] || tail[0] == sep
    ensures |Split(local + [sep] + middle + tail, sep)| >= 2
    ensures Split(local + [sep] + middle + tail, sep)[1] == middle
    decreases |local|
  {
    var s := local + [sep] + middle + tail;
    if local == [] {
      assert s == [sep] + (middle + tail);
      assert s[1..] == middle + tail;
      SplitFirstPart(middle, tail, sep);
    } else {
      assert s[1..] == local[1..] + [sep] + middle + tail;
      SplitSecondPart(local[1..], middle, tail, sep);
    }
  }

  /** The first part is the text before the first separator. */
  lemma {:induction false} SplitFirstPart(head: string, tail: string, sep: char)
    requires sep !in head
    requires tail == [] || tail[0] == sep
    ensures Split(head + tail, sep)[0] == head
    decreases |head|
  {
    if head == [] {
      assert head + tail == tail;
    } else {
      assert (head + tail)[1..] == head[1..] + tail;
      SplitFirstPart(head[1..], tail, sep);
    }
  }

  // ---------------------------------------------------------------------
  // `${n}` for an integer n

  function DigitChar(d: int): char
    requires 0 <= d < 10
  {
    ('0' as int + d) as char
  }

  function DecimalOf(n: nat): (s: string)
    ensures |s| >= 1
    ensures forall k :: 0 <= k < |s| ==> '0' <= s[k] <= '9'
  {
    if n < 10 then [DigitChar(n)] else DecimalOf(n / 10) + [DigitChar(n % 10)]
  }

  function IntText(i: int): string
  {
    if i < 0 then "-" + DecimalOf(-i) else DecimalOf(i)
  }

  /** Reads a string of decimal digits back as a number. */
  function DecimalValue(s: string): nat
    requires forall k :: 0 <= k < |s| ==> '0' <= s[k] <= '9'
  {
    if s == [] then 0 else DecimalValue(s[..|s| - 1]) * 10 + (s[|s| - 1] as int - '0' as int)
  }

  /** The decimal text of n reads back as n. */
  lemma {:induction false} DecimalRoundTrip(n: nat)
    ensures DecimalValue(DecimalOf(n)) == n
  {
    if n >= 10 {
      var s := DecimalOf(n);
      assert s[..|s| - 1] == DecimalOf(n / 10);
      DecimalRoundTrip(n / 10);
    }
  }
}
