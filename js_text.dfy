/** The small pieces of ECMAScript string and number behaviour the core relies
    on: white space as `String.prototype.trim` and `parseInt` see it,
    `parseInt(s, 10)`, the decimal text of a non-negative integer,
    `s.split('-')[1]`, the truthiness of an optional string, and
    `Array.prototype.find` on a key. */
module JsText {
  import opened Wrappers

  /** `xs.find(x => key(x) === k)`: the first element whose key is `k`, or
      nothing when no element has it. */
  function Find<T, K(==)>(xs: seq<T>, key: T -> K, k: K): (r: Option<T>)
    ensures r.None? <==> forall i :: 0 <= i < |xs| ==> key(xs[i]) != k
    ensures r.Some? ==> exists i :: 0 <= i < |xs| && xs[i] == r.value && key(r.value) == k &&
                                    forall j :: 0 <= j < i ==> key(xs[j]) != k
  {
    if xs == [] then None
    else if key(xs[0]) == k then Some(xs[0])
    else
      var r := Find(xs[1..], key, k);
      assert forall i :: 1 <= i < |xs| ==> xs[i] == xs[1..][i - 1];
      r
  }

  /** The element at `i` is the one found when it is the first with key `k`. */
  lemma FindAt<T, K>(xs: seq<T>, key: T -> K, k: K, i: int)
    requires 0 <= i < |xs| && key(xs[i]) == k
    requires forall j :: 0 <= j < i ==> key(xs[j]) != k
    ensures Find(xs, key, k) == Some(xs[i])
  {
    var r := Find(xs, key, k);
    var n :| 0 <= n < |xs| && xs[n] == r.value && key(r.value) == k &&
             forall j :: 0 <= j < n ==> key(xs[j]) != k;
    assert n == i;
  }

  /** Searching a concatenation finds the first list's match, if any, and
      otherwise the second's. */
  lemma {:induction false} FindInConcat<T, K>(a: seq<T>, b: seq<T>, key: T -> K, k: K)
    ensures Find(a + b, key, k) == if Find(a, key, k).Some? then Find(a, key, k) else Find(b, key, k)
  {
    if a == [] {
      assert a + b == b;
    } else {
      assert (a + b)[1..] == a[1..] + b;
      FindInConcat(a[1..], b, key, k);
    }
  }

  /** ECMAScript WhiteSpace and LineTerminator code points. */
  predicate IsSpace(c: char) {
    || c == '\t' || c == '\n' || c == '\U{B}' || c == '\U{C}' || c == '\r' || c == ' '
    || c == '\U{A0}' || c == '\U{1680}' || ('\U{2000}' <= c <= '\U{200A}')
    || c == '\U{2028}' || c == '\U{2029}' || c == '\U{202F}' || c == '\U{205F}'
    || c == '\U{3000}' || c == '\U{FEFF}'
  }

  /** Every character of `s` is white space (the empty string included). */
  predicate Blank(s: string) {
    forall i :: 0 <= i < |s| ==> IsSpace(s[i])
  }

  /** `s` with its leading white space removed. */
  function TrimStart(s: string): (r: string)
    ensures |r| <= |s| && r == s[|s| - |r|..]
    ensures Blank(s[..|s| - |r|])
    ensures r == [] || !IsSpace(r[0])
  {
    if |s| > 0 && IsSpace(s[0]) then
      var r := TrimStart(s[1..]);
      assert s[..|s| - |r|] == [s[0]] + s[1..][..|s| - 1 - |r|];
      r
    else s
  }

  /** `s` with its trailing white space removed. */
  function TrimEnd(s: string): (r: string)
    ensures |r| <= |s| && r == s[..|r|]
    ensures Blank(s[|r|..])
    ensures r == [] || !IsSpace(r[|r| - 1])
  {
    if |s| > 0 && IsSpace(s[|s| - 1]) then
      var r := TrimEnd(s[..|s| - 1]);
      assert s[|r|..] == s[..|s| - 1][|r|..] + [s[|s| - 1]];
      r
    else s
  }

  /** `String.prototype.trim`. */
  function Trim(s: string): (r: string)
    ensures exists i, j :: 0 <= i <= j <= |s| && r == s[i..j] && Blank(s[..i]) && Blank(s[j..])
    ensures r == [] || (!IsSpace(r[0]) && !IsSpace(r[|r| - 1]))
  {
    var t := TrimStart(s);
    TrimBetween(s, t, TrimEnd(t));
    TrimEnd(t)
  }

  /** Cutting a blank run off the front and another off the back leaves a
      slice of `s` between two blank runs. */
  lemma TrimBetween(s: string, t: string, r: string)
    requires |t| <= |s| && t == s[|s| - |t|..] && Blank(s[..|s| - |t|])
    requires |r| <= |t| && r == t[..|r|] && Blank(t[|r|..])
    ensures exists i, j :: 0 <= i <= j <= |s| && r == s[i..j] && Blank(s[..i]) && Blank(s[j..])
  {
    var i := |s| - |t|;
    assert s[i..][..|r|] == s[i..i + |r|];
    assert s[i + |r|..] == t[|r|..];
    assert r == s[i..i + |r|] && Blank(s[..i]) && Blank(s[i + |r|..]);
  }

  /** The trimmed string is empty exactly when the original is blank, so
      `!s.trim()` holds for the empty and the all-white-space strings only. */
  lemma TrimEmptyIffBlank(s: string)
    ensures Trim(s) == [] <==> Blank(s)
  {
    var t := TrimStart(s);
    if Trim(s) == [] {
      assert Blank(t[0..]);
      assert t == [];
      assert s[..|s|] == s;
    } else {
      assert t != [];
      assert !IsSpace(t[0]) && t[0] == s[|s| - |t|];
    }
  }

  /** JavaScript truthiness of an optional string: present and non-empty. */
  predicate Truthy(o: Option<string>) {
    o.Some? && o.value != ""
  }

  /** `o || fallback` for an optional string. */
  function OrElse(o: Option<string>, fallback: string): (r: string)
    ensures Truthy(o) ==> r == o.value
    ensures !Truthy(o) ==> r == fallback
  {
    if Truthy(o) then o.value else fallback
  }

  predicate IsDigit(c: char) {
    '0' <= c <= '9'
  }

  predicate AllDigits(s: string) {
    forall i :: 0 <= i < |s| ==> IsDigit(s[i])
  }

  /** The longest prefix of `s` made of decimal digits. */
  function DigitPrefix(s: string): (r: string)
    ensures |r| <= |s| && r == s[..|r|] && AllDigits(r)
    ensures |r| < |s| ==> !IsDigit(s[|r|])
  {
    if |s| > 0 && IsDigit(s[0]) then [s[0]] + DigitPrefix(s[1..]) else []
  }

  /** The value of a string of decimal digits, most significant first. */
  function DigitsValue(d: string): nat
    requires AllDigits(d)
  {
    if d == [] then 0 else DigitsValue(d[..|d| - 1]) * 10 + (d[|d| - 1] as int - '0' as int)
  }

  /** `parseInt(s, 10)`: leading white space is skipped, an optional sign is
      read, then the longest run of digits; no digit at all gives NaN (None). */
  function ParseInt(s: string): (r: Option<int>)
    ensures r.None? <==> DigitPrefix(UnSigned(TrimStart(s))) == []
  {
    var t := TrimStart(s);
    var d := DigitPrefix(UnSigned(t));
    if d == [] then None
    else
      var v: int := DigitsValue(d);
      Some(if |t| > 0 && t[0] == '-' then -v else v)
  }

  /** `parseInt` on white space, an optional sign, digits `d` and a `rest`
      that does not continue the digits: the signed value of `d`. */
  lemma ParseIntOf(ws: string, sign: string, d: string, rest: string)
    requires Blank(ws)
    requires sign == "" || sign == "+" || sign == "-"
    requires d != [] && AllDigits(d)
    requires rest == [] || !IsDigit(rest[0])
    ensures var v: int := DigitsValue(d); ParseInt(ws + sign + d + rest) == Some(if sign == "-" then -v else v)
  {
    TrimBeforeSign(ws, sign, d, rest);
    DigitsAfterSign(sign, d, rest);
    ParseIntUnfold(ws + sign + d + rest, sign + d + rest, d);
  }

  /** White space before a sign or a digit is what `TrimStart` removes. */
  lemma TrimBeforeSign(ws: string, sign: string, d: string, rest: string)
    requires Blank(ws)
    requires sign == "" || sign == "+" || sign == "-"
    requires d != [] && AllDigits(d)
    ensures TrimStart(ws + sign + d + rest) == sign + d + rest
  {
    var t := sign + d + rest;
    assert ws + sign + d + rest == ws + t;
    assert t[0] == if sign == "" then d[0] else sign[0];
    TrimStartSkips(ws, t);
  }

  /** After the sign come exactly the digits `d`; the text is negative
      exactly when the sign is '-'. */
  lemma DigitsAfterSign(sign: string, d: string, rest: string)
    requires sign == "" || sign == "+" || sign == "-"
    requires d != [] && AllDigits(d)
    requires rest == [] || !IsDigit(rest[0])
    ensures DigitPrefix(UnSigned(sign + d + rest)) == d
    ensures var t := sign + d + rest; (|t| > 0 && t[0] == '-') <==> sign == "-"
  {
    var t := sign + d + rest;
    assert t[0] == if sign == "" then d[0] else sign[0];
    assert UnSigned(t) == d + rest by {
      if sign != "" {
        assert t[1..] == d + rest;
      }
    }
    DigitPrefixStops(d, rest);
  }

  /** `ParseInt` once its trimmed text `t` and digit run `d` are known. */
  lemma ParseIntUnfold(s: string, t: string, d: string)
    requires TrimStart(s) == t && DigitPrefix(UnSigned(t)) == d && d != []
    ensures var v: int := DigitsValue(d); ParseInt(s) == Some(if |t| > 0 && t[0] == '-' then -v else v)
  {
  }

  /** Leading white space before a non-space is what `TrimStart` removes. */
  lemma {:induction false} TrimStartSkips(ws: string, x: string)
    requires Blank(ws)
    requires x == [] || !IsSpace(x[0])
    ensures TrimStart(ws + x) == x
  {
    if ws == [] {
      assert ws + x == x;
    } else {
      assert (ws + x)[0] == ws[0] && (ws + x)[1..] == ws[1..] + x;
      TrimStartSkips(ws[1..], x);
    }
  }

  /** The digit prefix of `d + rest` is `d` when `rest` does not start with
      a digit. */
  lemma {:induction false} DigitPrefixStops(d: string, rest: string)
    requires AllDigits(d)
    requires rest == [] || !IsDigit(rest[0])
    ensures DigitPrefix(d + rest) == d
  {
    if d == [] {
      assert d + rest == rest;
    } else {
      assert (d + rest)[0] == d[0] && (d + rest)[1..] == d[1..] + rest;
      DigitPrefixStops(d[1..], rest);
    }
  }

  /** `t` without its leading sign character, if it has one. */
  function UnSigned(t: string): string {
    if |t| > 0 && (t[0] == '+' || t[0] == '-') then t[1..] else t
  }

  /** `String(n)` for a non-negative integer: decimal, no leading zero. */
  function Decimal(n: nat): (r: string)
    ensures r != [] && AllDigits(r)
    ensures |r| > 1 ==> r[0] != '0'
  {
    var last := ['0' + (n % 10) as char];
    if n < 10 then last else Decimal(n / 10) + last
  }

  /** Printing then reading a decimal number gives the number back. */
  lemma {:induction false} DecimalValue(n: nat)
    ensures DigitsValue(Decimal(n)) == n
  {
    if n >= 10 {
      DecimalValue(n / 10);
      var r := Decimal(n);
      assert r[..|r| - 1] == Decimal(n / 10);
    }
  }

  /** `parseInt(String(n), 10) == n` for every non-negative integer `n`. */
  lemma ParseDecimal(n: nat)
    ensures ParseInt(Decimal(n)) == Some(n)
  {
    var s := Decimal(n);
    assert !IsSpace(s[0]) && s[0] != '+' && s[0] != '-';
    assert TrimStart(s) == s;
    assert UnSigned(s) == s;
    DigitPrefixOfDigits(s);
    DecimalValue(n);
  }

  lemma {:induction false} DigitPrefixOfDigits(s: string)
    requires AllDigits(s)
    ensures DigitPrefix(s) == s
  {
    if s != [] {
      DigitPrefixOfDigits(s[1..]);
    }
  }

  /** The text of `s` before its first '-' (or all of it when there is none). */
  function UpToDash(s: string): (r: string)
    ensures '-' !in r
    ensures |r| <= |s| && r == s[..|r|]
    ensures |r| < |s| ==> s[|r|] == '-'
  {
    if |s| == 0 || s[0] == '-' then [] else [s[0]] + UpToDash(s[1..])
  }

  /** `s.split('-')[1]`: the field after the first '-', up to the next '-' or
      the end; `undefined` (None) when `s` has no '-'. */
  function SecondField(s: string): (r: Option<string>)
    ensures r.None? <==> '-' !in s
  {
    if |s| == 0 then None
    else if s[0] == '-' then Some(UpToDash(s[1..]))
    else SecondField(s[1..])
  }

  /** The second '-'-separated field of `prefix + "-" + field + rest` is
      `field`, for a dash-free `prefix` and `field` and a `rest` that is
      empty or starts the next field with '-'. */
  lemma {:induction false} SecondFieldOf(prefix: string, field: string, rest: string)
    requires '-' !in prefix && '-' !in field
    requires rest == [] || rest[0] == '-'
    ensures SecondField(prefix + "-" + field + rest) == Some(field)
  {
    var s := prefix + "-" + field + rest;
    if prefix == [] {
      assert s[0] == '-' && s[1..] == field + rest;
      UpToDashStops(field, rest);
    } else {
      assert s[0] == prefix[0] && s[1..] == prefix[1..] + "-" + field + rest;
      SecondFieldOf(prefix[1..], field, rest);
    }
  }

  /** The first field of `field + rest` is `field` when `rest` is empty or
      starts with '-'. */
  lemma {:induction false} UpToDashStops(field: string, rest: string)
    requires '-' !in field
    requires rest == [] || rest[0] == '-'
    ensures UpToDash(field + rest) == field
  {
    if field == [] {
      assert field + rest == rest;
    } else {
      assert (field + rest)[0] == field[0] && (field + rest)[1..] == field[1..] + rest;
      UpToDashStops(field[1..], rest);
    }
  }
}
