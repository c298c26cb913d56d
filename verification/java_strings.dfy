/** The parts of java.lang.String and java.lang.Integer that the services rely on:
    `trim()`, `split(" ")`, string concatenation of a possibly-null reference and of an `int`. */
module JavaStrings {
  import opened Wrappers

  // ---------------------------------------------------------------------------
  // trim()
  // ---------------------------------------------------------------------------

  /** `String.trim()` removes every leading and trailing character whose code is at most U+0020. */
  predicate IsTrimmable(c: char) {
    c <= ' '
  }

  /** Everything but the longest all-trimmable prefix. */
  function TrimStart(s: string): (r: string)
    ensures |r| <= |s| && r == s[|s| - |r|..]
    ensures forall i :: 0 <= i < |s| - |r| ==> IsTrimmable(s[i])
    ensures r == [] || !IsTrimmable(r[0])
    decreases |s|
  {
    if |s| > 0 && IsTrimmable(s[0]) then TrimStart(s[1..]) else s
  }

  /** Everything but the longest all-trimmable suffix. */
  function TrimEnd(s: string): (r: string)
    ensures |r| <= |s| && r == s[..|r|]
    ensures forall i :: |r| <= i < |s| ==> IsTrimmable(s[i])
    ensures r == [] || !IsTrimmable(r[|r| - 1])
    decreases |s|
  {
    if |s| > 0 && IsTrimmable(s[|s| - 1]) then TrimEnd(s[..|s| - 1]) else s
  }

  /** Java's `s.trim()`. */
  function Trim(s: string): string {
    TrimEnd(TrimStart(s))
  }

  /** `s.trim().equals("")`. */
  predicate IsBlank(s: string) {
    Trim(s) == ""
  }

  /** Whether a nullable string passes the services' `x != null && !x.trim().equals("")` guard. */
  predicate HasText(o: Option<string>) {
    o.Some? && !IsBlank(o.value)
  }

  /** A string is blank exactly when every character of it is trimmable. */
  lemma BlankIffAllTrimmable(s: string)
    ensures IsBlank(s) <==> forall i :: 0 <= i < |s| ==> IsTrimmable(s[i])
  {
  }

  /** Surrounding a text that starts and ends with a visible character by trimmable padding
      does not change what `trim()` returns: this is why " Search... " is still the
      "return all" placeholder. */
  lemma {:induction false} TrimPadded(pre: string, x: string, post: string)
    requires forall i :: 0 <= i < |pre| ==> IsTrimmable(pre[i])
    requires forall i :: 0 <= i < |post| ==> IsTrimmable(post[i])
    requires |x| > 0 && !IsTrimmable(x[0]) && !IsTrimmable(x[|x| - 1])
    ensures Trim(pre + x + post) == x
  {
    var s := pre + x + post;
    TrimStartPadded(pre, x + post);
    assert s == pre + (x + post);
    TrimEndPadded(x, post);
  }

  lemma {:induction false} TrimStartPadded(pre: string, rest: string)
    requires forall i :: 0 <= i < |pre| ==> IsTrimmable(pre[i])
    requires |rest| > 0 && !IsTrimmable(rest[0])
    ensures TrimStart(pre + rest) == rest
    decreases |pre|
  {
    if |pre| == 0 {
      assert pre + rest == rest;
    } else {
      assert (pre + rest)[1..] == pre[1..] + rest;
      TrimStartPadded(pre[1..], rest);
    }
  }

  lemma {:induction false} TrimEndPadded(body: string, post: string)
    requires forall i :: 0 <= i < |post| ==> IsTrimmable(post[i])
    requires |body| > 0 && !IsTrimmable(body[|body| - 1])
    ensures TrimEnd(body + post) == body
    decreases |post|
  {
    if |post| == 0 {
      assert body + post == body;
    } else {
      var s := body + post;
      assert s[..|s| - 1] == body + post[..|post| - 1];
      TrimEndPadded(body, post[..|post| - 1]);
    }
  }

  // ---------------------------------------------------------------------------
  // split and join on a single-character separator
  // ---------------------------------------------------------------------------

  /** The pieces joined by `sep`, in order; no pieces join to the empty string. */
  function JoinWith(parts: seq<string>, sep: char): string
    decreases |parts|
  {
    if |parts| == 0 then ""
    else if |parts| == 1 then parts[0]
    else parts[0] + [sep] + JoinWith(parts[1..], sep)
  }

  /** `s` cut at every occurrence of `sep`, keeping every piece, empty ones included:
      a string with k separators yields k + 1 pieces. */
  function SplitOn(s: string, sep: char): (parts: seq<string>)
    ensures |parts| >= 1
    ensures forall i :: 0 <= i < |parts| ==> sep !in parts[i]
    ensures JoinWith(parts, sep) == s
    ensures |s| > 0 && s[|s| - 1] != sep ==> parts[|parts| - 1] != ""
    decreases |s|
  {
    if |s| == 0 then [""]
    else
      var rest := SplitOn(s[1..], sep);
      if s[0] == sep then
        assert ([""] + rest)[1..] == rest;
        assert s == [sep] + s[1..];
        [""] + rest
      else
        var parts := [[s[0]] + rest[0]] + rest[1..];
        assert parts[1..] == rest[1..];
        assert s == [s[0]] + s[1..];
        parts
  }

  /** Splitting at a separator splits the two sides independently. */
  lemma {:induction false} SplitConcat(x: string, sep: char, y: string)
    ensures SplitOn(x + [sep] + y, sep) == SplitOn(x, sep) + SplitOn(y, sep)
    decreases |x|
  {
    var s := x + [sep] + y;
    if |x| == 0 {
      assert s[1..] == y;
    } else {
      assert s[1..] == x[1..] + [sep] + y;
      SplitConcat(x[1..], sep, y);
    }
  }

  /** A string without the separator is a single piece. */
  lemma {:induction false} SplitNoSeparator(w: string, sep: char)
    requires sep !in w
    ensures SplitOn(w, sep) == [w]
  {
  }

  /** Joining separator-free pieces and splitting again gives the pieces back. */
  lemma {:induction false} SplitJoin(parts: seq<string>, sep: char)
    requires |parts| >= 1
    requires forall i :: 0 <= i < |parts| ==> sep !in parts[i]
    ensures SplitOn(JoinWith(parts, sep), sep) == parts
    decreases |parts|
  {
    if |parts| == 1 {
      SplitNoSeparator(parts[0], sep);
    } else {
      SplitJoin(parts[1..], sep);
      SplitConcat(parts[0], sep, JoinWith(parts[1..], sep));
      SplitNoSeparator(parts[0], sep);
      assert parts == [parts[0]] + parts[1..];
    }
  }

  /** `s` without its trailing run of `c`. */
  function DropTrailing(s: string, c: char): string
    decreases |s|
  {
    if |s| > 0 && s[|s| - 1] == c then DropTrailing(s[..|s| - 1], c) else s
  }

  /** `parts` without its trailing run of empty strings. */
  function DropTrailingEmpty(parts: seq<string>): seq<string>
    decreases |parts|
  {
    if |parts| > 0 && parts[|parts| - 1] == "" then DropTrailingEmpty(parts[..|parts| - 1]) else parts
  }

  /** Java's `s.split(String.valueOf(sep))` for a separator that is not a regular-expression
      metacharacter (limit 0): with no occurrence the array is `{s}`, otherwise every piece is
      kept except the trailing empty ones. */
  function JavaSplit(s: string, sep: char): seq<string> {
    if sep !in s then [s] else DropTrailingEmpty(SplitOn(s, sep))
  }

  /** The services' loop `for (String t : tokens) buffer.append(prefix).append(t)`. */
  function JoinPrefixed(tokens: seq<string>, prefix: string): string
    decreases |tokens|
  {
    if |tokens| == 0 then "" else prefix + tokens[0] + JoinPrefixed(tokens[1..], prefix)
  }

  lemma {:induction false} JoinPrefixedIsJoinWith(parts: seq<string>, sep: char)
    requires |parts| >= 1
    ensures JoinPrefixed(parts, [sep]) == [sep] + JoinWith(parts, sep)
    decreases |parts|
  {
    if |parts| > 1 {
      JoinPrefixedIsJoinWith(parts[1..], sep);
    }
  }

  lemma {:induction false} SplitDropTrailing(s: string, sep: char)
    requires exists i :: 0 <= i < |s| && s[i] != sep
    ensures DropTrailingEmpty(SplitOn(s, sep)) == SplitOn(DropTrailing(s, sep), sep)
    decreases |s|
  {
    if s[|s| - 1] == sep {
      var s' := s[..|s| - 1];
      var i :| 0 <= i < |s| && s[i] != sep;
      assert s'[i] == s[i];
      assert s == s' + [sep] + "";
      SplitConcat(s', sep, "");
      var p := SplitOn(s', sep);
      assert SplitOn(s, sep) == p + [""];
      assert (p + [""])[..|p|] == p;
      SplitDropTrailing(s', sep);
    }
  }

  /** The heart of the boolean-mode query: re-joining `s.split(" ")` with a space before every
      token yields one space followed by `s` without its trailing spaces, provided `s` has some
      character other than a space (interior and leading empty tokens survive the split, only
      trailing ones are dropped). */
  lemma {:induction false} SplitThenPrefixJoin(s: string)
    requires exists i :: 0 <= i < |s| && s[i] != ' '
    ensures JoinPrefixed(JavaSplit(s, ' '), " ") == " " + DropTrailing(s, ' ')
  {
    var t := DropTrailing(s, ' ');
    if ' ' in s {
      SplitDropTrailing(s, ' ');
      JoinPrefixedIsJoinWith(SplitOn(t, ' '), ' ');
    } else {
      assert s[|s| - 1] != ' ';
      JoinPrefixedIsJoinWith([s], ' ');
    }
  }

  // ---------------------------------------------------------------------------
  // string conversions
  // ---------------------------------------------------------------------------

  /** What `"" + o` appends for a nullable string reference: "null" for null. */
  function NullableText(o: Option<string>): string {
    match o
    case None => "null"
    case Some(s) => s
  }

  predicate IsDigit(c: char) {
    '0' <= c <= '9'
  }

  function DigitChar(d: nat): (c: char)
    requires d < 10
    ensures IsDigit(c)
  {
    ('0' as int + d) as char
  }

  /** Decimal digits of `n` without leading zeros, as `Integer.toString` writes them. */
  function NatToString(n: nat): (r: string)
    ensures |r| >= 1
    ensures forall i :: 0 <= i < |r| ==> IsDigit(r[i])
    ensures |r| > 1 ==> r[0] != '0'
    decreases n
  {
    if n < 10 then [DigitChar(n)] else NatToString(n / 10) + [DigitChar(n % 10)]
  }

  /** Java's decimal rendering of an `int`, as string concatenation and `String.valueOf` produce. */
  function IntToString(n: int): (r: string)
    ensures |r| >= 1
    ensures forall i :: 0 <= i < |r| ==> IsDigit(r[i]) || (i == 0 && r[i] == '-')
    ensures n >= 0 <==> IsDigit(r[0])
  {
    if n < 0 then "-" + NatToString(-n) else NatToString(n)
  }

  /** The value of a string of decimal digits. */
  function ParseNat(s: string): nat
    requires forall i :: 0 <= i < |s| ==> IsDigit(s[i])
    decreases |s|
  {
    if |s| == 0 then 0
    else
      assert IsDigit(s[|s| - 1]);
      ParseNat(s[..|s| - 1]) * 10 + (s[|s| - 1] as int - '0' as int)
  }

  /** A decimal integer literal: an optional minus sign followed by at least one digit. */
  predicate IsIntLiteral(s: string) {
    if |s| > 0 && s[0] == '-' then |s| > 1 && forall i :: 1 <= i < |s| ==> IsDigit(s[i])
    else |s| > 0 && forall i :: 0 <= i < |s| ==> IsDigit(s[i])
  }

  /** The reverse of `IntToString`, `Integer.parseInt` on well-formed input. */
  function ParseInt(s: string): int
    requires IsIntLiteral(s)
  {
    if s[0] == '-' then -(ParseNat(s[1..]) as int) else ParseNat(s)
  }

  lemma {:induction false} ParseNatToString(n: nat)
    ensures ParseNat(NatToString(n)) == n
    decreases n
  {
    if n >= 10 {
      var r := NatToString(n);
      assert r[..|r| - 1] == NatToString(n / 10);
      ParseNatToString(n / 10);
    }
  }

  /** Every `int` is read back from its decimal rendering, so the rendering is injective. */
  lemma IntToStringRoundTrip(n: int)
    ensures IsIntLiteral(IntToString(n))
    ensures ParseInt(IntToString(n)) == n
  {
    if n < 0 {
      assert IntToString(n)[1..] == NatToString(-n);
      ParseNatToString(-n);
    } else {
      ParseNatToString(n);
    }
  }

  lemma IntToStringInjective(a: int, b: int)
    requires IntToString(a) == IntToString(b)
    ensures a == b
  {
    IntToStringRoundTrip(a);
    IntToStringRoundTrip(b);
  }
}
