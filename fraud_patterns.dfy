/**
 * The three regular expressions of the suspicious-email check
 * (src/lib/fraud.ts:158-164): /\d{6,}/, /[a-z]{20,}/ and /(.)\1{4,}/.
 *
 * Each expression asks for a "run": k consecutive characters where the first
 * one may start a run and every later one continues it. `Scan` is the single
 * left-to-right pass that decides this; `HasRun` is the reference meaning (a
 * window of length k exists), and `ScanDecidesRun` proves the two agree.
 */
module FraudPatterns {

  datatype RunKind =
    | Digits     // \d : an ASCII digit
    | Lowercase  // [a-z]
    | Repeats    // (.)\1 : the same character again; `.` excludes line terminators

  predicate IsLineTerminator(c: char)
  {
    c == '\n' || c == '\r' || c == '\U{2028}' || c == '\U{2029}'
  }

  predicate Starts(kind: RunKind, c: char)
  {
    match kind
    case Digits => '0' <= c <= '9'
    case Lowercase => 'a' <= c <= 'z'
    case Repeats => !IsLineTerminator(c)
  }

  predicate Continues(kind: RunKind, prev: char, c: char)
  {
    match kind
    case Digits => '0' <= c <= '9'
    case Lowercase => 'a' <= c <= 'z'
    case Repeats => c == prev
  }

  /** s[a..a+len] is a run of the given kind. */
  predicate WindowIsRun(s: string, kind: RunKind, a: nat, len: nat)
    requires a + len <= |s|
  {
    len > 0 && Starts(kind, s[a]) && forall j :: a < j < a + len ==> Continues(kind, s[j - 1], s[j])
  }

  /** Reference meaning of the regular expression: some window of length k is a run. */
  predicate HasRun(s: string, kind: RunKind, k: nat)
  {
    exists a: nat :: a + k <= |s| && WindowIsRun(s, kind, a, k)
  }

  /** Length of the longest run that ends just before index e. */
  function RunEndingAt(s: string, kind: RunKind, e: nat): (n: nat)
    requires e <= |s|
    ensures n <= e
  {
    if e == 0 then 0
    else
      var m := RunEndingAt(s, kind, e - 1);
      if m > 0 && Continues(kind, s[e - 2], s[e - 1]) then m + 1
      else if Starts(kind, s[e - 1]) then 1
      else 0
  }

  /**
   * One pass over s from index i, where `run` is the length of the run
   * ending just before i; true as soon as a run reaches k.
   */
  function Scan(s: string, kind: RunKind, k: nat, i: nat, run: nat): bool
    requires i <= |s| && run <= i
    decreases |s| - i
  {
    if run >= k then true
    else if i == |s| then false
    else
      var next := if run > 0 && Continues(kind, s[i - 1], s[i]) then run + 1
                  else if Starts(kind, s[i]) then 1
                  else 0;
      Scan(s, kind, k, i + 1, next)
  }

  /** Every run of length up to RunEndingAt(e) that ends at e is a window run. */
  lemma {:induction false} RunEndingAtSound(s: string, kind: RunKind, e: nat, m: nat)
    requires e <= |s| && 0 < m <= RunEndingAt(s, kind, e)
    ensures WindowIsRun(s, kind, e - m, m)
    decreases e
  {
    var prev := RunEndingAt(s, kind, e - 1);
    if m > 1 {
      assert prev > 0 && Continues(kind, s[e - 2], s[e - 1]);
      RunEndingAtSound(s, kind, e - 1, m - 1);
    } else if prev > 0 && Continues(kind, s[e - 2], s[e - 1]) {
      // a run that is continued was started, so its last character can start one too
      RunEndingAtSound(s, kind, e - 1, 1);
    }
  }

  /** A window run ending at e is no longer than RunEndingAt(e). */
  lemma {:induction false} RunEndingAtComplete(s: string, kind: RunKind, e: nat, m: nat)
    requires 0 < m <= e <= |s| && WindowIsRun(s, kind, e - m, m)
    ensures RunEndingAt(s, kind, e) >= m
    decreases m
  {
    if m > 1 {
      assert WindowIsRun(s, kind, e - m, m - 1);
      RunEndingAtComplete(s, kind, e - 1, m - 1);
      assert Continues(kind, s[e - 2], s[e - 1]);
    }
  }

  /** The scan from i answers whether a run of length k ends at some e in [i, |s|]. */
  lemma {:induction false} ScanFrom(s: string, kind: RunKind, k: nat, i: nat)
    requires i <= |s|
    ensures Scan(s, kind, k, i, RunEndingAt(s, kind, i)) <==>
            exists e: nat :: i <= e <= |s| && RunEndingAt(s, kind, e) >= k
    decreases |s| - i
  {
    if RunEndingAt(s, kind, i) < k && i < |s| {
      ScanFrom(s, kind, k, i + 1);
      var later := exists e: nat :: i + 1 <= e <= |s| && RunEndingAt(s, kind, e) >= k;
      assert (exists e: nat :: i <= e <= |s| && RunEndingAt(s, kind, e) >= k) <==> later;
    }
  }

  /** The one-pass scan decides exactly the reference meaning of the expression. */
  lemma ScanDecidesRun(s: string, kind: RunKind, k: nat)
    requires k > 0
    ensures Scan(s, kind, k, 0, 0) <==> HasRun(s, kind, k)
  {
    ScanFrom(s, kind, k, 0);
    if Scan(s, kind, k, 0, 0) {
      var e: nat :| e <= |s| && RunEndingAt(s, kind, e) >= k;
      RunEndingAtSound(s, kind, e, k);
      assert WindowIsRun(s, kind, e - k, k);
    }
    if HasRun(s, kind, k) {
      var a: nat :| a + k <= |s| && WindowIsRun(s, kind, a, k);
      RunEndingAtComplete(s, kind, a + k, k);
      assert RunEndingAt(s, kind, a + k) >= k;
    }
  }

  /** For /(.)\1{4,}/ a run means: one non-terminator character, repeated throughout the window. */
  lemma {:induction false} RepeatRunIsSameCharacter(s: string, a: nat, len: nat)
    requires a + len <= |s| && len > 0
    ensures WindowIsRun(s, Repeats, a, len) <==>
            !IsLineTerminator(s[a]) && forall j :: a <= j < a + len ==> s[j] == s[a]
    decreases len
  {
    if len > 1 {
      RepeatRunIsSameCharacter(s, a, len - 1);
      assert WindowIsRun(s, Repeats, a, len) <==> WindowIsRun(s, Repeats, a, len - 1) && s[a + len - 1] == s[a + len - 2];
    }
  }

  function DigitRun(s: string): bool { Scan(s, Digits, 6, 0, 0) }
  function LetterRun(s: string): bool { Scan(s, Lowercase, 20, 0, 0) }
  function RepeatedChar(s: string): bool { Scan(s, Repeats, 5, 0, 0) }

  /**
   * isSuspiciousEmail (src/lib/fraud.ts:156-165): true when any of the three
   * expressions matches somewhere in the address.
   */
  function IsSuspiciousEmail(email: string): (suspicious: bool)
    ensures suspicious <==>
      HasRun(email, Digits, 6) || HasRun(email, Lowercase, 20) || HasRun(email, Repeats, 5)
  {
    ScanDecidesRun(email, Digits, 6);
    ScanDecidesRun(email, Lowercase, 20);
    ScanDecidesRun(email, Repeats, 5);
    DigitRun(email) || LetterRun(email) || RepeatedChar(email)
  }
}
