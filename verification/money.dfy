/** The two money-token normalisers and Python's `float()` / `round(x, 2)` on
    exact decimals.

    - Santander (`_clean_money`): `$` prefix, `.` thousands separator, `,` decimal
      separator, e.g. "-$ 70.833,71".
    - HSBC: `,` thousands separator, `.` decimal point, no sign, e.g. "1,234.56".

    Values are Dafny `real`s, i.e. exact rationals: binary floating point is not modelled. */
module Money {
  import opened Base
  import opened Text

  /** Digits with at most one `.` and at least one digit: the unsigned decimal
      literals `float()` accepts. */
  predicate IsUnsignedDecimal(s: string) {
    && (forall i :: 0 <= i < |s| ==> IsDigit(s[i]) || s[i] == '.')
    && Count(s, '.') <= 1
    && HasDigit(s)
  }

  /** An optional `+`/`-` followed by an unsigned decimal literal. */
  predicate IsSignedDecimal(t: string) {
    IsUnsignedDecimal(t) || (|t| > 0 && (t[0] == '-' || t[0] == '+') && IsUnsignedDecimal(t[1..]))
  }

  /** Index of the first `c` in `s`, or `|s|` when there is none. */
  function FirstIndex(s: string, c: char): (i: nat)
    ensures i <= |s|
    ensures i < |s| ==> s[i] == c
  {
    if |s| == 0 || s[0] == c then 0 else 1 + FirstIndex(s[1..], c)
  }

  /** No `c` comes before the first one. */
  lemma {:induction false} FirstIndexFirst(s: string, c: char)
    ensures forall j :: 0 <= j < FirstIndex(s, c) ==> s[j] != c
  {
    if |s| > 0 && s[0] != c {
      FirstIndexFirst(s[1..], c);
    }
  }

  /** `n` divided by ten `k` times: the value of fraction digits worth `n` when
      there are `k` of them. */
  function Scaled(n: nat, k: nat): (r: real)
    ensures r >= 0.0
  {
    if k == 0 then n as real else Scaled(n, k - 1) / 10.0
  }

  lemma {:induction false} ScaledTwo(n: nat)
    ensures Scaled(n, 2) == n as real / 100.0
  {
    assert Scaled(n, 1) == n as real / 10.0;
  }

  /** The value of integer digits `ip` and fraction digits `fp`, when both are digit
      strings and not both are empty. */
  function Literal(ip: string, fp: string): (r: Option<real>)
    ensures r.Some? ==> r.value >= 0.0
  {
    if AllDigits(ip) && AllDigits(fp) && |ip| + |fp| > 0 then
      Some(DigitsValue(ip) as real + Scaled(DigitsValue(fp), |fp|))
    else None
  }

  /** The value of an unsigned decimal literal: integer digits, then optionally a
      point and fraction digits. */
  function ParseUnsigned(s: string): Option<real> {
    var i := FirstIndex(s, '.');
    Literal(s[..i], if i < |s| then s[i + 1..] else "")
  }

  /** Splitting at the first point: the integer part holds no point, and the points
      of `s` are the one split at and those of the fraction part. */
  lemma {:induction false} SplitAtPoint(s: string)
    ensures var i := FirstIndex(s, '.');
            && '.' !in s[..i]
            && (i < |s| ==> s == s[..i] + "." + s[i + 1..] && Count(s, '.') == 1 + Count(s[i + 1..], '.'))
            && (i == |s| ==> Count(s, '.') == 0)
  {
    var i := FirstIndex(s, '.');
    var ip := s[..i];
    assert '.' !in ip by {
      FirstIndexFirst(s, '.');
    }
    CountAbsent(ip, '.');
    if i < |s| {
      var fp := s[i + 1..];
      SplitAt(s, i);
      CountConcat(ip + ".", fp, '.');
      CountConcat(ip, ".", '.');
    } else {
      assert s == ip;
    }
  }

  lemma {:induction false} SplitAt(s: string, i: nat)
    requires i < |s|
    ensures s == s[..i] + [s[i]] + s[i + 1..]
  {
  }

  /** Digits, a point, digits, with some digit: an unsigned decimal literal. */
  lemma {:induction false} DigitsAroundPoint(ip: string, fp: string)
    requires AllDigits(ip) && AllDigits(fp) && |ip| + |fp| > 0
    ensures IsUnsignedDecimal(ip + "." + fp)
  {
    var s := ip + "." + fp;
    assert Count(s, '.') == 1 by {
      CountAbsent(ip, '.');
      CountAbsent(fp, '.');
      CountConcat(ip + ".", fp, '.');
      CountConcat(ip, ".", '.');
    }
    assert forall j :: 0 <= j < |s| ==> IsDigit(s[j]) || s[j] == '.' by {
      forall j | 0 <= j < |s| ensures IsDigit(s[j]) || s[j] == '.' {
        if j < |ip| {
          assert s[j] == ip[j];
        } else if j > |ip| {
          assert s[j] == fp[j - |ip| - 1];
        }
      }
    }
    if |ip| > 0 {
      assert IsDigit(s[0]);
    } else {
      assert s[|ip| + 1] == fp[0];
    }
  }

  /** Whatever ParseUnsigned reads is an unsigned decimal literal. */
  lemma {:induction false} ParsedIsDecimal(s: string)
    requires ParseUnsigned(s).Some?
    ensures IsUnsignedDecimal(s)
  {
    var i := FirstIndex(s, '.');
    var ip := s[..i];
    var fp := if i < |s| then s[i + 1..] else "";
    assert AllDigits(ip) && AllDigits(fp) && |ip| + |fp| > 0;
    if i < |s| {
      SplitAt(s, i);
      DigitsAroundPoint(ip, fp);
    } else {
      assert s == ip;
      assert '.' !in ip by {
        FirstIndexFirst(s, '.');
      }
      CountAbsent(ip, '.');
      assert IsDigit(s[0]);
    }
  }

  /** Python's `float()` on a string holding a plain decimal literal, after
      discarding surrounding whitespace. CPython maps non-ASCII whitespace to a space
      and then strips ASCII whitespace only, so the information separators U+001C..U+001F,
      which `str.strip` would discard, make it raise wherever they stand. */
  function ParseFloat(s: string): Option<real> {
    if NoInfoSeparator(s) then ParseSigned(Strip(s)) else None
  }

  /** Whatever `float()` reads holds no information separator and is, once stripped, a
      signed decimal literal. */
  lemma {:induction false} ParseFloatShape(s: string)
    requires ParseFloat(s).Some?
    ensures NoInfoSeparator(s) && IsSignedDecimal(Strip(s))
  {
    var t := Strip(s);
    if |t| > 0 && (t[0] == '-' || t[0] == '+') {
      ParsedIsDecimal(t[1..]);
    } else {
      ParsedIsDecimal(t);
    }
  }

  /** An optional sign followed by an unsigned literal, nothing around them. */
  function ParseSigned(t: string): (r: Option<real>)
  {
    if |t| > 0 && (t[0] == '-' || t[0] == '+') then
      Negated(ParseUnsigned(t[1..]), t[0] == '-')
    else ParseUnsigned(t)
  }

  function Negated(o: Option<real>, neg: bool): Option<real> {
    if o.Some? && neg then Some(-o.value) else o
  }

  /** Whatever float() accepts holds at most one point and at least one digit. */
  lemma {:induction false} ParseFloatNeeds(s: string)
    requires ParseFloat(s).Some?
    ensures Count(s, '.') <= 1
    ensures HasDigit(s)
  {
    var t := Strip(s);
    ParseFloatShape(s);
    StripKeepsCount(s, '.');
    var u := if IsUnsignedDecimal(t) then t else t[1..];
    assert IsUnsignedDecimal(u);
    if u != t {
      assert t == t[..1] + u;
      CountConcat(t[..1], u, '.');
    }
    var k :| 0 <= k < |u| && IsDigit(u[k]);
    StripSubset(s);
    assert u[k] in t;
    assert u[k] in s;
    var j :| 0 <= j < |s| && s[j] == u[k];
  }

  /** `_clean_money(raw)` up to the final `float()`: delete `$`, delete `.`,
      turn `,` into `.`, delete spaces, strip. */
  function CleanArg(raw: string): string {
    Strip(Remove(Replace(Remove(Remove(raw, '$'), '.'), ',', '.'), ' '))
  }

  /** `_clean_money(raw)`: None where `float()` raises ValueError. Only a token with
      some digit and at most one comma (the decimal comma) can be read. */
  function CleanMoney(raw: string): (r: Option<real>)
    ensures r.Some? ==> HasDigit(raw) && Count(raw, ',') <= 1
  {
    var r := ParseFloat(CleanArg(raw));
    if r.Some? then
      ParseFloatNeeds(CleanArg(raw));
      CleanArgPoints(raw);
      CleanArgDigits(raw);
      r
    else r
  }

  /** Every point left after cleaning was a comma of the raw token. */
  lemma {:induction false} CleanArgPoints(raw: string)
    ensures Count(CleanArg(raw), '.') == Count(raw, ',')
  {
    var s1 := Remove(raw, '$');
    var s2 := Remove(s1, '.');
    var s3 := Replace(s2, ',', '.');
    var s4 := Remove(s3, ' ');
    RemoveCount(s1, '.');
    CountAbsent(s2, '.');
    assert Count(s4, '.') == Count(s3, '.') by { CountRemove(s3, ' ', '.'); }
    assert Count(s3, '.') == Count(s2, ',') by { CountReplace(s2, ',', '.', '.'); }
    assert Count(s2, ',') == Count(s1, ',') by { CountRemove(s1, '.', ','); }
    assert Count(s1, ',') == Count(raw, ',') by { CountRemove(raw, '$', ','); }
    StripKeepsCount(s4, '.');
  }

  /** Cleaning creates no digit. */
  lemma {:induction false} CleanArgDigits(raw: string)
    requires HasDigit(CleanArg(raw))
    ensures HasDigit(raw)
  {
    var s1 := Remove(raw, '$');
    var s2 := Remove(s1, '.');
    var s3 := Replace(s2, ',', '.');
    var s4 := Remove(s3, ' ');
    var k :| 0 <= k < |CleanArg(raw)| && IsDigit(CleanArg(raw)[k]);
    var d := CleanArg(raw)[k];
    StripSubset(s4);
    assert d in s4;
    RemoveMembers(s3, ' ', d);
    var j :| 0 <= j < |s3| && s3[j] == d;
    assert s2[j] == d && d in s2;
    RemoveMembers(s1, '.', d);
    RemoveMembers(raw, '$', d);
    var m :| 0 <= m < |raw| && raw[m] == d;
  }

  /** The HSBC conversion `float(token.replace(",", ""))`. Only a token with some digit
      and at most one point can be read. */
  function UsMoney(raw: string): (r: Option<real>)
    ensures r.Some? ==> HasDigit(raw) && Count(raw, '.') <= 1
  {
    var r := ParseFloat(Remove(raw, ','));
    if r.Some? then
      ParseFloatNeeds(Remove(raw, ','));
      CountRemove(raw, ',', '.');
      RemoveKeepsDigit(raw, ',');
      r
    else r
  }

  /** Whole cents: a hundred times the value is an integer. */
  predicate IsCents(x: real) {
    (x * 100.0).Floor as real == x * 100.0
  }

  lemma {:induction false} CentsArith(a: real, b: real)
    requires IsCents(a) && IsCents(b)
    ensures IsCents(a - b) && IsCents(a + b)
  {
    var fa, fb := (a * 100.0).Floor, (b * 100.0).Floor;
    assert a * 100.0 == fa as real;
    assert b * 100.0 == fb as real;
    assert (a - b) * 100.0 == a * 100.0 - b * 100.0;
    assert (a + b) * 100.0 == a * 100.0 + b * 100.0;
    assert ((fa - fb) as real).Floor == fa - fb;
    assert ((fa + fb) as real).Floor == fa + fb;
  }

  /** The integer nearest to `y`, ties to the even one. */
  function HalfEven(y: real): (n: int)
    ensures -0.5 <= n as real - y <= 0.5
    ensures y.Floor as real == y ==> n == y.Floor
    ensures y - y.Floor as real == 0.5 ==> n % 2 == 0
  {
    var f := y.Floor;
    var d := y - f as real;
    if d < 0.5 then f else if d > 0.5 then f + 1 else if f % 2 == 0 then f else f + 1
  }

  /** A whole number of cents, as a value. */
  lemma {:induction false} Hundredths(n: int)
    ensures (n as real / 100.0) * 100.0 == n as real
    ensures IsCents(n as real / 100.0)
  {
    assert (n as real / 100.0) * 100.0 == n as real;
    assert (n as real).Floor == n;
  }

  /** Python's `round(x, 2)` on an exact value: the nearest whole-cents value,
      ties to the even cent. */
  function Round2(x: real): (r: real)
    ensures IsCents(r)
    ensures -0.005 <= r - x <= 0.005
    ensures IsCents(x) ==> r == x
    ensures x * 100.0 - (x * 100.0).Floor as real == 0.5 ==> (r * 100.0).Floor % 2 == 0
  {
    var n := HalfEven(x * 100.0);
    Hundredths(n);
    assert (n as real / 100.0 - x) * 100.0 == n as real - x * 100.0;
    n as real / 100.0
  }

  lemma {:induction false} FirstPoint(d: string, t: string)
    requires AllDigits(d)
    ensures FirstIndex(d + "." + t, '.') == |d|
  {
    var s := d + "." + t;
    assert s[|d|] == '.';
    assert forall j :: 0 <= j < |d| ==> s[j] == d[j] && s[j] != '.';
    FirstIndexFirst(s, '.');
  }

  /** Two fraction digits are worth hundredths. */
  lemma {:induction false} LiteralCents(d: string, t: string)
    requires AllDigits(d) && AllDigits(t) && |t| == 2
    ensures Literal(d, t) == Some(DigitsValue(d) as real + DigitsValue(t) as real / 100.0)
  {
    ScaledTwo(DigitsValue(t));
  }

  /** A literal `digits.dd` has the value of its digits in cents. */
  lemma {:induction false} ParseCentsLiteral(d: string, t: string)
    requires AllDigits(d) && AllDigits(t) && |t| == 2
    ensures ParseUnsigned(d + "." + t) == Some(DigitsValue(d) as real + DigitsValue(t) as real / 100.0)
  {
    var s := d + "." + t;
    FirstPoint(d, t);
    assert s[..|d|] == d;
    assert s[|d| + 1..] == t;
    assert ParseUnsigned(s) == Literal(d, t);
    LiteralCents(d, t);
  }

  /** The Santander layout of an amount: optional `-`, `$`, a space, the integer
      digits `d` with thousands separated by `.`, a decimal comma and the two
      decimals `t`. */
  function ArgLayout(neg: bool, d: string, t: string): string {
    Sign(neg) + "$ " + Group(d, '.') + "," + t
  }

  /** The sign an amount is printed with. */
  function Sign(neg: bool): string {
    if neg then "-" else ""
  }

  /** A literal `u` with a leading minus when `neg`. */
  function SignedLiteral(neg: bool, u: string): string {
    if neg then "-" + u else u
  }

  /** The HSBC layout of an amount: integer digits `d` with thousands separated by
      `,`, a decimal point and the two decimals `t`. */
  function UsLayout(d: string, t: string): string {
    Group(d, ',') + "." + t
  }

  /** float() on text with no surrounding whitespace and no sign reads it as an
      unsigned literal. */
  lemma {:induction false} ParseFloatUnsigned(s: string)
    requires |s| > 0 && s[0] != '-' && s[0] != '+'
    requires !IsSpace(s[0]) && !IsSpace(s[|s| - 1]) && NoInfoSeparator(s)
    ensures ParseFloat(s) == ParseUnsigned(s)
  {
    StripUnchanged(s);
  }

  /** float() on `-` followed by an unsigned literal reads minus its value. */
  lemma {:induction false} ParseFloatNegative(u: string, v: real)
    requires |u| > 0 && !IsSpace(u[|u| - 1]) && NoInfoSeparator(u) && ParseUnsigned(u) == Some(v)
    ensures ParseFloat("-" + u) == Some(-v)
  {
    var s := "-" + u;
    assert NoInfoSeparator(s) by {
      NoInfoSeparatorConcat("-", u);
    }
    assert Strip(s) == s by {
      assert s[|s| - 1] == u[|u| - 1];
      StripUnchanged(s);
    }
    ParseSignedMinus(u, v);
  }

  /** A signed literal with a leading `-` is the negation of the rest. */
  lemma {:induction false} ParseSignedMinus(u: string, v: real)
    requires ParseUnsigned(u) == Some(v)
    ensures ParseSigned("-" + u) == Some(-v)
  {
    var s := "-" + u;
    assert s[0] == '-' && s[1..] == u;
  }

  /** A literal made of digits and a point holds no information separator. */
  lemma {:induction false} PointLiteralPlain(d: string, t: string)
    requires AllDigits(d) && AllDigits(t)
    ensures NoInfoSeparator(d + "." + t)
  {
    NoInfoSeparatorConcat(d, ".");
    NoInfoSeparatorConcat(d + ".", t);
  }

  /** float() reads `digits.t` as the unsigned literal it is. */
  lemma {:induction false} ParseFloatPoint(d: string, t: string, v: real)
    requires AllDigits(d) && AllDigits(t) && |t| > 0
    requires ParseUnsigned(d + "." + t) == Some(v)
    ensures ParseFloat(d + "." + t) == Some(v)
  {
    var u := d + "." + t;
    PointLiteralPlain(d, t);
    assert u[|u| - 1] == t[|t| - 1];
    assert u[0] == if |d| > 0 then d[0] else '.';
    ParseFloatUnsigned(u);
  }

  /** float() reads `digits.dd` as its value in cents. */
  lemma {:induction false} ParseFloatCents(d: string, t: string)
    requires AllDigits(d) && AllDigits(t) && |t| == 2
    ensures ParseFloat(d + "." + t) == Some(DigitsValue(d) as real + DigitsValue(t) as real / 100.0)
  {
    ParseCentsLiteral(d, t);
    ParseFloatPoint(d, t, DigitsValue(d) as real + DigitsValue(t) as real / 100.0);
  }

  /** `digits.dd` is an unsigned literal ending in a digit, and reads as its value in
      cents. */
  lemma {:induction false} CentsLiteralUnsigned(d: string, t: string)
    requires AllDigits(d) && AllDigits(t) && |t| == 2
    ensures var u := d + "." + t;
            && |u| > 0 && !IsSpace(u[|u| - 1]) && NoInfoSeparator(u)
            && ParseUnsigned(u) == Some(DigitsValue(d) as real + DigitsValue(t) as real / 100.0)
  {
    var u := d + "." + t;
    assert u[|u| - 1] == t[1];
    PointLiteralPlain(d, t);
    ParseCentsLiteral(d, t);
  }

  /** The four replacements of `_clean_money` undo the Santander layout. */
  lemma {:induction false} CleanArgFormatted(neg: bool, d: string, t: string)
    requires AllDigits(d) && |d| > 0 && AllDigits(t) && |t| == 2
    ensures CleanArg(ArgLayout(neg, d, t)) == SignedLiteral(neg, d + "." + t)
  {
    var sg := Sign(neg);
    var s4 := sg + d + "." + t;
    assert Remove(Replace(Remove(Remove(ArgLayout(neg, d, t), '$'), '.'), ',', '.'), ' ') == s4 by {
      CleanArgReplacements(sg, d, t);
    }
    assert Strip(s4) == s4 by {
      SignedCentsUnstripped(sg, d, t);
    }
    SignedLiteralLayout(neg, d, t);
  }

  /** A literal with its sign is the sign's text followed by the literal. */
  lemma {:induction false} SignedLiteralLayout(neg: bool, d: string, t: string)
    ensures SignedLiteral(neg, d + "." + t) == Sign(neg) + d + "." + t
  {
    if neg {
      assert "-" + (d + "." + t) == "-" + d + "." + t;
    } else {
      assert Sign(neg) + d == d;
    }
  }

  /** The replacements of `_clean_money`, before the strip, on the Santander layout. */
  lemma {:induction false} CleanArgReplacements(sg: string, d: string, t: string)
    requires sg == "" || sg == "-"
    requires AllDigits(d) && |d| > 0 && AllDigits(t) && |t| == 2
    ensures Remove(Replace(Remove(Remove(sg + "$ " + Group(d, '.') + "," + t, '$'), '.'), ',', '.'), ' ') == sg + d + "." + t
  {
    var g := Group(d, '.');
    GroupChars(d, '.');
    var s0 := sg + "$ " + g + "," + t;
    var s1 := sg + " " + g + "," + t;
    var s2 := sg + " " + d + "," + t;
    var s3 := sg + " " + d + "." + t;
    assert Remove(s0, '$') == s1 by {
      RemoveDollar(sg, g, t);
    }
    assert Remove(s1, '.') == s2 by {
      RemovePoints(sg, d, t);
    }
    assert Replace(s2, ',', '.') == s3 by {
      ReplaceComma(sg, d, t);
    }
    RemoveSpace(sg, d, t);
  }


  lemma {:induction false} SignedCentsUnstripped(sg: string, d: string, t: string)
    requires sg == "" || sg == "-"
    requires AllDigits(d) && |d| > 0 && AllDigits(t) && |t| == 2
    ensures Strip(sg + d + "." + t) == sg + d + "." + t
  {
    var s := sg + d + "." + t;
    assert s[|s| - 1] == t[1];
    assert s[0] == if sg == "-" then '-' else d[0];
    StripUnchanged(s);
  }

  lemma {:induction false} ReplaceComma(sg: string, d: string, t: string)
    requires sg == "" || sg == "-"
    requires AllDigits(d) && AllDigits(t)
    ensures Replace(sg + " " + d + "," + t, ',', '.') == sg + " " + d + "." + t
  {
    assert ',' !in d && ',' !in t;
    ReplaceConcat(sg + " " + d + ",", t, ',', '.');
    ReplaceConcat(sg + " " + d, ",", ',', '.');
    ReplaceConcat(sg + " ", d, ',', '.');
    ReplaceAbsent(sg + " ", ',', '.');
    ReplaceAbsent(d, ',', '.');
    ReplaceAbsent(t, ',', '.');
    assert Replace(",", ',', '.') == ".";
  }

  lemma {:induction false} RemoveDollar(sg: string, g: string, t: string)
    requires sg == "" || sg == "-"
    requires forall x :: x in g ==> IsDigit(x) || x == '.'
    requires AllDigits(t)
    ensures Remove(sg + "$ " + g + "," + t, '$') == sg + " " + g + "," + t
  {
    assert '$' !in g && '$' !in t;
    RemoveConcat(sg + "$ " + g + ",", t, '$');
    RemoveConcat(sg + "$ " + g, ",", '$');
    RemoveConcat(sg + "$ ", g, '$');
    RemoveConcat(sg, "$ ", '$');
    RemoveAbsent(sg, '$');
    RemoveAbsent(g, '$');
    RemoveAbsent(t, '$');
    RemoveAbsent(",", '$');
    assert Remove("$ ", '$') == " ";
  }

  lemma {:induction false} RemovePoints(sg: string, d: string, t: string)
    requires sg == "" || sg == "-"
    requires AllDigits(d) && AllDigits(t)
    ensures Remove(sg + " " + Group(d, '.') + "," + t, '.') == sg + " " + d + "," + t
  {
    var g := Group(d, '.');
    assert '.' !in d && '.' !in t;
    RemoveConcat(sg + " " + g + ",", t, '.');
    RemoveConcat(sg + " " + g, ",", '.');
    RemoveConcat(sg + " ", g, '.');
    RemoveConcat(sg, " ", '.');
    RemoveAbsent(sg, '.');
    RemoveAbsent(" ", '.');
    RemoveAbsent(",", '.');
    RemoveAbsent(t, '.');
    RemoveGroupSeparators(d, '.');
  }

  lemma {:induction false} RemoveSpace(sg: string, d: string, t: string)
    requires sg == "" || sg == "-"
    requires AllDigits(d) && AllDigits(t)
    ensures Remove(sg + " " + d + "." + t, ' ') == sg + d + "." + t
  {
    assert ' ' !in d && ' ' !in t;
    RemoveConcat(sg + " " + d + ".", t, ' ');
    RemoveConcat(sg + " " + d, ".", ' ');
    RemoveConcat(sg + " ", d, ' ');
    RemoveConcat(sg, " ", ' ');
    RemoveAbsent(sg, ' ');
    RemoveAbsent(d, ' ');
    RemoveAbsent(".", ' ');
    RemoveAbsent(t, ' ');
    assert Remove(" ", ' ') == "";
  }

  /** float() reads `[-]digits.dd` as its signed value in cents. */
  lemma {:induction false} ParseFloatSignedCents(neg: bool, d: string, t: string)
    requires AllDigits(d) && AllDigits(t) && |t| == 2
    ensures ParseFloat(SignedLiteral(neg, d + "." + t)) ==
            var v := DigitsValue(d) as real + DigitsValue(t) as real / 100.0;
            Some(if neg then -v else v)
  {
    if neg {
      CentsLiteralUnsigned(d, t);
      ParseFloatNegative(d + "." + t, DigitsValue(d) as real + DigitsValue(t) as real / 100.0);
    } else {
      ParseFloatCents(d, t);
    }
  }

  /** `_clean_money` reads a Santander-laid-out token as its signed value. */
  lemma {:induction false} CleanMoneyLayout(neg: bool, d: string, t: string)
    requires AllDigits(d) && |d| > 0 && AllDigits(t) && |t| == 2
    ensures CleanMoney(ArgLayout(neg, d, t)) ==
            var v := DigitsValue(d) as real + DigitsValue(t) as real / 100.0;
            Some(if neg then -v else v)
  {
    CleanArgFormatted(neg, d, t);
    ParseFloatSignedCents(neg, d, t);
  }

  /** The HSBC conversion reads an HSBC-laid-out token as its value. */
  lemma {:induction false} UsMoneyLayout(d: string, t: string)
    requires AllDigits(d) && AllDigits(t) && |t| == 2
    ensures UsMoney(UsLayout(d, t)) == Some(DigitsValue(d) as real + DigitsValue(t) as real / 100.0)
  {
    var g := Group(d, ',');
    GroupChars(d, ',');
    assert ',' !in t;
    RemoveConcat(g + ".", t, ',');
    RemoveConcat(g, ".", ',');
    RemoveGroupSeparators(d, ',');
    RemoveAbsent(".", ',');
    RemoveAbsent(t, ',');
    assert Remove(UsLayout(d, t), ',') == d + "." + t;
    ParseFloatCents(d, t);
  }

  /** The shape of an HSBC amount capture, `(?:\d{1,3}(?:,\d{3})*|\d*)\.\d{2}`,
      loosened to any mix of digits and commas before the point. */
  predicate IsUsAmountToken(s: string) {
    && |s| >= 3
    && s[|s| - 3] == '.' && IsDigit(s[|s| - 2]) && IsDigit(s[|s| - 1])
    && forall i :: 0 <= i < |s| - 3 ==> IsDigit(s[i]) || s[i] == ','
  }

  /** Deleting the commas of an HSBC capture leaves `digits.dd`. */
  lemma {:induction false} UsTokenDigits(s: string)
    requires IsUsAmountToken(s)
    ensures var p, t := s[..|s| - 3], s[|s| - 2..];
            AllDigits(Remove(p, ',')) && AllDigits(t) && |t| == 2
            && Remove(s, ',') == Remove(p, ',') + "." + t
  {
    var p, t := s[..|s| - 3], s[|s| - 2..];
    assert s == p + "." + t;
    var d := Remove(p, ',');
    RemoveCount(p, ',');
    assert AllDigits(d) by {
      forall i | 0 <= i < |d| ensures IsDigit(d[i]) {
        assert d[i] in d;
        assert d[i] != ',';
        RemoveMembers(p, ',', d[i]);
      }
    }
    assert ',' !in t;
    RemoveConcat(p + ".", t, ',');
    RemoveConcat(p, ".", ',');
    RemoveAbsent(".", ',');
    RemoveAbsent(t, ',');
  }

  /** The value an HSBC amount capture denotes: its digits read as cents. */
  function UsTokenValue(s: string): (v: real)
    requires IsUsAmountToken(s)
    ensures IsCents(v)
  {
    UsTokenDigits(s);
    var d, t := Remove(s[..|s| - 3], ','), s[|s| - 2..];
    CentsOfDigits(DigitsValue(d), DigitsValue(t));
    DigitsValue(d) as real + DigitsValue(t) as real / 100.0
  }

  /** The HSBC conversion reads every amount capture as the value its digits denote. */
  lemma {:induction false} UsTokenConverts(s: string)
    requires IsUsAmountToken(s)
    ensures UsMoney(s) == Some(UsTokenValue(s))
  {
    UsTokenDigits(s);
    var d, t := Remove(s[..|s| - 3], ','), s[|s| - 2..];
    assert UsTokenValue(s) == DigitsValue(d) as real + DigitsValue(t) as real / 100.0;
    UsMoneyOfDigits(s, d, t);
  }

  /** The HSBC conversion of a token whose commas delete down to `d.t`. */
  lemma {:induction false} UsMoneyOfDigits(s: string, d: string, t: string)
    requires AllDigits(d) && AllDigits(t) && |t| == 2
    requires Remove(s, ',') == d + "." + t
    ensures UsMoney(s) == Some(DigitsValue(d) as real + DigitsValue(t) as real / 100.0)
  {
    ParseFloatCents(d, t);
  }

  /** Every HSBC amount capture converts, and to a whole number of cents. */
  lemma {:induction false} UsTokenIsCents(s: string)
    requires IsUsAmountToken(s)
    ensures UsMoney(s).Some? && IsCents(UsMoney(s).value)
  {
    UsTokenConverts(s);
  }

  /** Whole units plus a number of cents is a whole number of cents. */
  lemma {:induction false} CentsOfDigits(q: nat, m: nat)
    ensures IsCents(q as real + m as real / 100.0)
  {
    var x := q as real + m as real / 100.0;
    var n := q * 100 + m;
    assert (q * 100) as real == q as real * 100.0;
    assert x * 100.0 == n as real;
    assert (n as real).Floor == n;
  }
}
