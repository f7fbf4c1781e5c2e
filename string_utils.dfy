/**
 * The string helpers the naming service relies on: Java's 32-bit `int`,
 * `StringUtils.isBlank`, `String.trim`, `StringUtils.split(s, ch)` and the
 * lenient integer conversions `StringUtils.toInt(s, default)` and
 * `StringUtils.toInt(s)`, which are built on `Integer.parseInt`.
 */
module StringUtils {
  import opened Wrappers

  /** Java's `int`. */
  type int32 = x: int | -0x8000_0000 <= x <= 0x7FFF_FFFF

  /*** isBlank ***/

  /** `Character.isWhitespace`: the ASCII controls it names and the Unicode space separators except the no-break spaces U+00A0, U+2007 and U+202F. */
  predicate IsWhitespace(c: char) {
    || c == ' '
    || '\t' <= c <= '\r'
    || '\U{1C}' <= c <= '\U{1F}'
    || c == '\U{1680}'
    || '\U{2000}' <= c <= '\U{2006}'
    || '\U{2008}' <= c <= '\U{200A}'
    || c == '\U{2028}' || c == '\U{2029}' || c == '\U{205F}' || c == '\U{3000}'
  }

  /** `isBlank`: null, empty, or whitespace only. */
  predicate IsBlank(s: Option<string>) {
    s.None? || forall i :: 0 <= i < |s.value| ==> IsWhitespace(s.value[i])
  }

  /*** trim ***/

  /** `String.trim` removes every character at or below the space character from both ends. */
  predicate IsTrimmedAway(c: char) {
    c <= ' '
  }

  /** Where `trim`'s first scan stops: the first visible character at or after `st`, or the end. */
  function TrimStart(s: string, st: nat): (r: nat)
    requires st <= |s|
    ensures st <= r <= |s|
    ensures r == |s| || !IsTrimmedAway(s[r])
    decreases |s| - st
  {
    if st < |s| && IsTrimmedAway(s[st]) then TrimStart(s, st + 1) else st
  }

  /** Where `trim`'s second scan stops: just after the last visible character in `s[st..len]`, or `st`. */
  function TrimEnd(s: string, st: nat, len: nat): (r: nat)
    requires st <= len <= |s|
    ensures st <= r <= len
    ensures r == st || !IsTrimmedAway(s[r - 1])
    decreases len
  {
    if st < len && IsTrimmedAway(s[len - 1]) then TrimEnd(s, st, len - 1) else len
  }

  /** `String.trim`: the part of `s` between the two scans. */
  function Trim(s: string): string {
    var st := TrimStart(s, 0);
    s[st..TrimEnd(s, st, |s|)]
  }

  /** Everything the first scan passes over is a blank. */
  lemma {:induction false} TrimStartCutsBlanks(s: string, st: nat)
    requires st <= |s|
    ensures forall k :: st <= k < TrimStart(s, st) ==> IsTrimmedAway(s[k])
    decreases |s| - st
  {
    if st < |s| && IsTrimmedAway(s[st]) {
      TrimStartCutsBlanks(s, st + 1);
    }
  }

  /** Everything the second scan passes over is a blank. */
  lemma {:induction false} TrimEndCutsBlanks(s: string, st: nat, len: nat)
    requires st <= len <= |s|
    ensures forall k :: TrimEnd(s, st, len) <= k < len ==> IsTrimmedAway(s[k])
    decreases len
  {
    if st < len && IsTrimmedAway(s[len - 1]) {
      TrimEndCutsBlanks(s, st, len - 1);
    }
  }

  /** Trim keeps a contiguous middle part of its input and cuts off only blanks on either side. */
  lemma TrimIsCore(s: string)
    ensures var st := TrimStart(s, 0);
      var len := TrimEnd(s, st, |s|);
      && Trim(s) == s[st..len]
      && (forall k :: 0 <= k < st ==> IsTrimmedAway(s[k]))
      && (forall k :: len <= k < |s| ==> IsTrimmedAway(s[k]))
  {
    var st := TrimStart(s, 0);
    TrimStartCutsBlanks(s, 0);
    TrimEndCutsBlanks(s, st, |s|);
  }

  /** Trim's result begins and ends with a visible character. */
  lemma TrimEndsVisible(s: string)
    ensures Trim(s) == [] || (!IsTrimmedAway(Trim(s)[0]) && !IsTrimmedAway(Trim(s)[|Trim(s)| - 1]))
  {
  }

  /** A string that starts and ends with visible characters is its own trim. */
  lemma TrimOfCore(s: string)
    requires s == [] || (!IsTrimmedAway(s[0]) && !IsTrimmedAway(s[|s| - 1]))
    ensures Trim(s) == s
  {
    assert s[0..|s|] == s;
  }

  lemma TrimIdempotent(s: string)
    ensures Trim(Trim(s)) == Trim(s)
  {
    TrimEndsVisible(s);
    TrimOfCore(Trim(s));
  }

  /*** split ***/

  /** Length of the longest prefix of `s` free of `sep`. */
  function TokenLength(s: string, sep: char): (n: nat)
    ensures n <= |s|
    ensures forall k :: 0 <= k < n ==> s[k] != sep
    ensures n < |s| ==> s[n] == sep
  {
    if |s| == 0 || s[0] == sep then 0 else 1 + TokenLength(s[1..], sep)
  }

  /**
   * `StringUtils.split(s, sep)`: the maximal runs of characters other than
   * `sep`, in order; adjacent, leading and trailing separators yield no
   * empty tokens.
   */
  function Split(s: string, sep: char): (tokens: seq<string>)
    ensures forall k :: 0 <= k < |tokens| ==> tokens[k] != [] && sep !in tokens[k]
    decreases |s|
  {
    if |s| == 0 then []
    else if s[0] == sep then Split(s[1..], sep)
    else
      var n := TokenLength(s, sep);
      [s[..n]] + Split(s[n..], sep)
  }

  function Concat(ts: seq<string>): string {
    if ts == [] then [] else ts[0] + Concat(ts[1..])
  }

  /** `s` with every `sep` removed. */
  function Without(s: string, sep: char): string {
    if s == [] then [] else (if s[0] == sep then [] else [s[0]]) + Without(s[1..], sep)
  }

  /** The tokens joined with `sep` between consecutive ones. */
  function Join(ts: seq<string>, sep: char): string {
    if |ts| == 0 then []
    else if |ts| == 1 then ts[0]
    else ts[0] + [sep] + Join(ts[1..], sep)
  }

  lemma {:induction false} WithoutAppend(a: string, b: string, sep: char)
    ensures Without(a + b, sep) == Without(a, sep) + Without(b, sep)
  {
    if a == [] {
      assert a + b == b;
    } else {
      assert (a + b)[0] == a[0];
      assert (a + b)[1..] == a[1..] + b;
      WithoutAppend(a[1..], b, sep);
    }
  }

  lemma {:induction false} WithoutAbsent(s: string, sep: char)
    requires sep !in s
    ensures Without(s, sep) == s
  {
    if s != [] {
      WithoutAbsent(s[1..], sep);
    }
  }

  /** Splitting loses the separators and nothing else. */
  lemma {:induction false} SplitKeepsEverythingButSeparators(s: string, sep: char)
    ensures Concat(Split(s, sep)) == Without(s, sep)
    decreases |s|
  {
    if |s| == 0 {
    } else if s[0] == sep {
      SplitKeepsEverythingButSeparators(s[1..], sep);
    } else {
      var n := TokenLength(s, sep);
      var ts := Split(s, sep);
      assert ts[0] == s[..n] && ts[1..] == Split(s[n..], sep);
      SplitKeepsEverythingButSeparators(s[n..], sep);
      assert s == s[..n] + s[n..];
      WithoutAppend(s[..n], s[n..], sep);
      WithoutAbsent(s[..n], sep);
    }
  }

  /** The first token of `t + rest` is `t` when `rest` is empty or starts with a separator. */
  lemma {:induction false} TokenLengthOfJoined(t: string, rest: string, sep: char)
    requires sep !in t
    requires rest == [] || rest[0] == sep
    ensures TokenLength(t + rest, sep) == |t|
  {
    if t == [] {
      assert t + rest == rest;
    } else {
      assert (t + rest)[0] == t[0];
      assert (t + rest)[1..] == t[1..] + rest;
      TokenLengthOfJoined(t[1..], rest, sep);
    }
  }

  lemma {:induction false} SplitSingle(t: string, sep: char)
    requires t != [] && sep !in t
    ensures Split(t, sep) == [t]
  {
    TokenLengthOfJoined(t, [], sep);
    assert t + [] == t;
    assert t[..|t|] == t;
    assert t[|t|..] == [];
  }

  /** A separator ends the first token of `a` just as the end of `a` does. */
  lemma {:induction false} TokenLengthBeforeSeparator(a: string, rest: string, sep: char)
    requires rest == [] || rest[0] == sep
    ensures TokenLength(a + rest, sep) == TokenLength(a, sep)
  {
    if a == [] {
      assert a + rest == rest;
    } else if a[0] != sep {
      assert (a + rest)[0] == a[0];
      assert (a + rest)[1..] == a[1..] + rest;
      TokenLengthBeforeSeparator(a[1..], rest, sep);
    } else {
      assert (a + rest)[0] == sep;
    }
  }

  /**
   * A separator always separates: the tokens of `a`, a separator and `b` are
   * the tokens of `a` followed by those of `b`. With `Split([]) == []` and
   * `SplitSingle` this determines `Split` on every string; in particular a
   * run of separators counts as one and never fuses its neighbours.
   */
  lemma {:induction false} SplitAtSeparator(a: string, b: string, sep: char)
    ensures Split(a + [sep] + b, sep) == Split(a, sep) + Split(b, sep)
    decreases |a|
  {
    var s := a + [sep] + b;
    if a == [] {
      assert s == [sep] + b && s[1..] == b;
    } else if a[0] == sep {
      assert s[0] == sep && s[1..] == a[1..] + [sep] + b;
      SplitAtSeparator(a[1..], b, sep);
    } else {
      var n := TokenLength(a, sep);
      assert s == a + ([sep] + b);
      TokenLengthBeforeSeparator(a, [sep] + b, sep);
      assert s[0] == a[0];
      assert s[..n] == a[..n];
      assert s[n..] == a[n..] + [sep] + b;
      SplitAtSeparator(a[n..], b, sep);
      assert Split(s, sep) == [a[..n]] + Split(s[n..], sep);
      assert Split(a, sep) == [a[..n]] + Split(a[n..], sep);
    }
  }

  /** `"0,,2"` has the two tokens "0" and "2". */
  lemma DoubleSeparatorExample()
    ensures Split("0,,2", ',') == ["0", "2"]
  {
    SplitAtSeparator("0", ",2", ',');
    assert "0" + [','] + ",2" == "0,,2";
    SplitAtSeparator([], "2", ',');
    assert [] + [','] + "2" == ",2";
    SplitSingle("0", ',');
    SplitSingle("2", ',');
  }

  /** Splitting undoes joining, for tokens that are non-empty and free of the separator. */
  lemma {:induction false} SplitJoin(ts: seq<string>, sep: char)
    requires forall k :: 0 <= k < |ts| ==> ts[k] != [] && sep !in ts[k]
    ensures Split(Join(ts, sep), sep) == ts
  {
    if |ts| == 0 {
    } else if |ts| == 1 {
      SplitSingle(ts[0], sep);
    } else {
      var t, rest := ts[0], [sep] + Join(ts[1..], sep);
      var s := t + rest;
      assert Join(ts, sep) == s;
      TokenLengthOfJoined(t, rest, sep);
      assert s[..|t|] == t;
      assert s[|t|..] == rest;
      assert rest[1..] == Join(ts[1..], sep);
      SplitJoin(ts[1..], sep);
      assert Split(s, sep) == [t] + Split(rest, sep);
    }
  }

  /*** toInt ***/

  predicate IsDigit(c: char) {
    '0' <= c <= '9'
  }

  predicate AllDigits(ds: string) {
    forall i :: 0 <= i < |ds| ==> IsDigit(ds[i])
  }

  function DigitsValue(ds: string): nat
    requires AllDigits(ds)
  {
    if ds == [] then 0 else DigitsValue(ds[..|ds| - 1]) * 10 + (ds[|ds| - 1] as int - '0' as int)
  }

  /**
   * `Integer.parseInt(s)`: an optional `-` or `+`, at least one decimal
   * digit, and a value within `int`; anything else is a
   * `NumberFormatException`, here `None`.
   */
  function ParseInt(s: string): Option<int32> {
    if |s| == 0 then None
    else
      var digits := if s[0] == '-' || s[0] == '+' then s[1..] else s;
      if |digits| == 0 || !AllDigits(digits) then None
      else
        var v: int := if s[0] == '-' then 0 - DigitsValue(digits) else DigitsValue(digits);
        if -0x8000_0000 <= v <= 0x7FFF_FFFF then Some(v) else None
  }

  /** `StringUtils.toInt(s, default)`: the parsed value, or `default` when `s` does not parse. */
  function ToIntOr(s: string, default: int32): int32 {
    match ParseInt(s)
    case Some(v) => v
    case None => default
  }

  /**
   * The value the one-argument `StringUtils.toInt(s)` returns for a string
   * that does not parse. That helper's fallback is not part of this model:
   * no contract depends on this constant.
   */
  const TO_INT_FALLBACK: int32 := 0

  /** `StringUtils.toInt(s)`. */
  function ToInt(s: string): int32 {
    ToIntOr(s, TO_INT_FALLBACK)
  }

  /*** decimal formatting, the partner of parsing ***/

  function NatDigits(n: nat): (ds: string)
    ensures ds != [] && AllDigits(ds)
  {
    var d := ['0' + (n % 10) as char];
    if n < 10 then d else NatDigits(n / 10) + d
  }

  /** `Integer.toString(n)`. */
  function FormatInt(n: int32): string {
    if n < 0 then "-" + NatDigits(0 - n as int) else NatDigits(n)
  }

  lemma {:induction false} NatDigitsValue(n: nat)
    ensures DigitsValue(NatDigits(n)) == n
  {
    var ds := NatDigits(n);
    if n >= 10 {
      NatDigitsValue(n / 10);
      assert ds[..|ds| - 1] == NatDigits(n / 10);
    }
  }

  /** Parsing undoes formatting. */
  lemma ParseFormat(n: int32)
    ensures ParseInt(FormatInt(n)) == Some(n)
    ensures ToIntOr(FormatInt(n), 0) == n && ToInt(FormatInt(n)) == n
  {
    var s := FormatInt(n);
    if n < 0 {
      NatDigitsValue(0 - n as int);
      assert s[1..] == NatDigits(0 - n as int);
    } else {
      NatDigitsValue(n);
    }
  }

  /** What `parseInt` refuses: nothing, a bare sign, and surrounding blanks (why the filter tokens are trimmed first). */
  lemma ParseIntRejects()
    ensures ParseInt("") == None && ParseInt("-") == None && ParseInt("+") == None
    ensures ParseInt(" 1") == None && ParseInt("1 ") == None && ParseInt("x") == None
  {
    assert !IsDigit(" 1"[0]) && !IsDigit("1 "[1]) && !IsDigit("x"[0]);
    assert "-"[1..] == [] && "+"[1..] == [];
  }

  /**
   * `parseInt` takes an explicit sign either way: `+` before a numeral in
   * range gives its value, `-` its negation, down to `MIN_VALUE`.
   */
  lemma ParseIntSigns(n: nat)
    ensures n <= 0x7FFF_FFFF ==> ParseInt("+" + NatDigits(n)) == Some(n)
    ensures n <= 0x8000_0000 ==> ParseInt("-" + NatDigits(n)) == Some(0 - n)
    ensures ParseInt("+7") == Some(7) && ParseInt("-7") == Some(-7)
  {
    NatDigitsValue(n);
    var ds := NatDigits(n);
    assert ("+" + ds)[1..] == ds && ("-" + ds)[1..] == ds;
    assert "+7"[1..] == "7" && "-7"[1..] == "7";
    assert "7"[..0] == [];
  }

  /** `parseInt` refuses every decimal numeral beyond the range of `int`, either sign. */
  lemma ParseIntOutOfRange(n: nat)
    requires n > 0x7FFF_FFFF
    ensures ParseInt(NatDigits(n)) == None && ParseInt("+" + NatDigits(n)) == None
    ensures n > 0x8000_0000 ==> ParseInt("-" + NatDigits(n)) == None
  {
    NatDigitsValue(n);
    var ds := NatDigits(n);
    assert IsDigit(ds[0]);
    assert ("+" + ds)[1..] == ds && ("-" + ds)[1..] == ds;
  }

  /** A formatted integer has nothing for `trim` to remove. */
  lemma TrimFormat(n: int32)
    ensures Trim(FormatInt(n)) == FormatInt(n)
  {
    var s := FormatInt(n);
    var ds := NatDigits(if n < 0 then 0 - n as int else n);
    assert IsDigit(ds[|ds| - 1]);
    assert s[|s| - 1] == ds[|ds| - 1];
    TrimOfCore(s);
  }
}
