/**
 * Small value-level helpers shared by the Android and iOS models: an optional
 * value, Kotlin's `isBlank`/`contains`/`joinToString`, and the decimal rendering
 * of a timestamp used in file names.
 */
module Common {

  datatype Option<T> = None | Some(value: T)

  /**
   * Kotlin's `Char.isWhitespace` on the JVM (`Character.isWhitespace` or
   * `Character.isSpaceChar`): the controls U+0009 to U+000D and U+001C to
   * U+001F, and every Unicode space, line and paragraph separator.
   */
  predicate IsWhitespace(c: char) {
    ('\t' <= c <= '\r') || ('\U{001C}' <= c <= ' ') || c == '\U{00A0}' || c == '\U{1680}' ||
    ('\U{2000}' <= c <= '\U{200A}') || c == '\U{2028}' || c == '\U{2029}' || c == '\U{202F}' ||
    c == '\U{205F}' || c == '\U{3000}'
  }

  /** Kotlin `String.isBlank()`: empty or whitespace only. */
  predicate IsBlank(s: string) {
    forall i :: 0 <= i < |s| ==> IsWhitespace(s[i])
  }

  /** Kotlin `String.contains(sub)`. */
  predicate Contains(s: string, sub: string)
    decreases |s|
  {
    sub <= s || (|s| > 0 && Contains(s[1..], sub))
  }

  /** A string contains each of its own suffixes. */
  lemma {:induction false} ContainsSuffix(s: string, sub: string, k: nat)
    requires k <= |s| && sub <= s[k..]
    ensures Contains(s, sub)
    decreases k
  {
    if k > 0 {
      assert s[1..][k - 1..] == s[k..];
      ContainsSuffix(s[1..], sub, k - 1);
    }
  }

  /** Kotlin `joinToString(sep)` / Swift `joined(separator:)`. */
  function Join(parts: seq<string>, sep: string): (r: string)
    ensures parts == [] ==> r == []
    ensures |parts| == 1 ==> r == parts[0]
    decreases |parts|
  {
    if parts == [] then []
    else if |parts| == 1 then parts[0]
    else parts[0] + sep + Join(parts[1..], sep)
  }

  /** Joining two non-empty runs of parts puts exactly one separator between their joins. */
  lemma {:induction false} JoinAppend(a: seq<string>, b: seq<string>, sep: string)
    requires a != [] && b != []
    ensures Join(a + b, sep) == Join(a, sep) + sep + Join(b, sep)
    decreases |a|
  {
    assert (a + b)[0] == a[0];
    assert (a + b)[1..] == a[1..] + b;
    if |a| > 1 {
      JoinAppend(a[1..], b, sep);
    }
  }

  /**
   * Kotlin `filter { it.isNotBlank() }`: exactly the non-blank parts are kept,
   * each as often as it occurs; `NonBlankAppend` gives the order.
   */
  function NonBlank(parts: seq<string>): (r: seq<string>)
    ensures |r| <= |parts|
    ensures forall i :: 0 <= i < |r| ==> !IsBlank(r[i])
    ensures forall s :: s in r <==> s in parts && !IsBlank(s)
    ensures forall s :: !IsBlank(s) ==> multiset(r)[s] == multiset(parts)[s]
    decreases |parts|
  {
    if parts == [] then []
    else
      assert parts == [parts[0]] + parts[1..];
      if IsBlank(parts[0]) then NonBlank(parts[1..])
      else [parts[0]] + NonBlank(parts[1..])
  }

  /** The filter keeps the order of the parts: filtering a concatenation concatenates the filtered halves. */
  lemma {:induction false} NonBlankAppend(a: seq<string>, b: seq<string>)
    ensures NonBlank(a + b) == NonBlank(a) + NonBlank(b)
    decreases |a|
  {
    if a == [] {
      assert a + b == b;
    } else {
      assert (a + b)[0] == a[0];
      assert (a + b)[1..] == a[1..] + b;
      NonBlankAppend(a[1..], b);
    }
  }

  /** Joining non-blank parts gives a non-blank string exactly when there is one. */
  lemma {:induction false} JoinNonBlank(parts: seq<string>, sep: string)
    requires forall i :: 0 <= i < |parts| ==> !IsBlank(parts[i])
    ensures IsBlank(Join(parts, sep)) <==> parts == []
    decreases |parts|
  {
    if |parts| > 1 {
      var r := Join(parts, sep);
      assert r == parts[0] + sep + Join(parts[1..], sep);
      var i :| 0 <= i < |parts[0]| && !IsWhitespace(parts[0][i]);
      assert r[i] == parts[0][i];
    }
  }

  function DigitChar(d: nat): (c: char)
    requires d < 10
    ensures '0' <= c <= '9'
  {
    ['0', '1', '2', '3', '4', '5', '6', '7', '8', '9'][d]
  }

  function DigitValue(c: char): (d: nat)
    requires '0' <= c <= '9'
    ensures d < 10
  {
    (c as int - '0' as int) as nat
  }

  /** Decimal rendering of a non-negative number, as Kotlin's "$n" for a Long. */
  function NatToString(n: nat): (r: string)
    ensures |r| >= 1
    ensures forall i :: 0 <= i < |r| ==> '0' <= r[i] <= '9'
    decreases n
  {
    if n < 10 then [DigitChar(n)] else NatToString(n / 10) + [DigitChar(n % 10)]
  }

  /** Reads a run of decimal digits back as a number. */
  function ParseDigits(s: string): nat
    requires forall i :: 0 <= i < |s| ==> '0' <= s[i] <= '9'
    decreases |s|
  {
    if s == [] then 0 else ParseDigits(s[..|s| - 1]) * 10 + DigitValue(s[|s| - 1])
  }

  lemma DigitRoundTrip(d: nat)
    requires d < 10
    ensures DigitValue(DigitChar(d)) == d
  {
  }

  lemma {:induction false} NatToStringRoundTrip(n: nat)
    ensures ParseDigits(NatToString(n)) == n
    decreases n
  {
    var r := NatToString(n);
    DigitRoundTrip(n % 10);
    if n >= 10 {
      NatToStringRoundTrip(n / 10);
      assert r[..|r| - 1] == NatToString(n / 10);
    } else {
      assert r[..|r| - 1] == [];
    }
  }

  /** Distinct timestamps render as distinct strings. */
  lemma NatToStringInjective(m: nat, n: nat)
    requires NatToString(m) == NatToString(n)
    ensures m == n
  {
    NatToStringRoundTrip(m);
    NatToStringRoundTrip(n);
  }

  /** Cancels a common prefix and suffix around two middles. */
  lemma CancelAround<T>(a: seq<T>, x: seq<T>, y: seq<T>, b: seq<T>)
    requires a + x + b == a + y + b
    ensures x == y
  {
    var s := a + x + b;
    assert |x| == |y|;
    assert x == s[|a|..|a| + |x|];
    assert y == (a + y + b)[|a|..|a| + |y|];
  }
}
