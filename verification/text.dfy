/** Character-level string operations the parsers use: Python's `str.strip`,
    `str.replace` with a one-character pattern, ASCII lower-casing and decimal
    digit strings. */
module Text {

  /** Python's `str.isspace`: the characters `str.strip()` discards. */
  predicate IsSpace(c: char) {
    var n := c as int;
    (0x09 <= n <= 0x0D) || (0x1C <= n <= 0x20) || n == 0x85 || n == 0xA0 || n == 0x1680
    || (0x2000 <= n <= 0x200A) || n == 0x2028 || n == 0x2029 || n == 0x202F || n == 0x205F
    || n == 0x3000
  }

  /** The information separators U+001C..U+001F: whitespace to `str.isspace` and
      `str.strip`, but not to `float()`, which strips ASCII whitespace only. */
  predicate IsInfoSeparator(c: char) {
    0x1C <= c as int <= 0x1F
  }

  /** No information separator anywhere in `s`. */
  predicate NoInfoSeparator(s: string) {
    forall i :: 0 <= i < |s| ==> !IsInfoSeparator(s[i])
  }

  lemma {:induction false} NoInfoSeparatorConcat(a: string, b: string)
    requires NoInfoSeparator(a) && NoInfoSeparator(b)
    ensures NoInfoSeparator(a + b)
  {
    forall i | 0 <= i < |a + b| ensures !IsInfoSeparator((a + b)[i]) {
      if i < |a| {
        assert (a + b)[i] == a[i];
      } else {
        assert (a + b)[i] == b[i - |a|];
      }
    }
  }

  predicate IsDigit(c: char) {
    '0' <= c <= '9'
  }

  predicate AllDigits(s: string) {
    forall i :: 0 <= i < |s| ==> IsDigit(s[i])
  }

  predicate HasDigit(s: string) {
    exists i :: 0 <= i < |s| && IsDigit(s[i])
  }

  /** Number of occurrences of `c` in `s`. */
  function Count(s: string, c: char): nat
  {
    if |s| == 0 then 0 else (if s[0] == c then 1 else 0) + Count(s[1..], c)
  }

  lemma {:induction false} CountConcat(a: string, b: string, c: char)
    ensures Count(a + b, c) == Count(a, c) + Count(b, c)
  {
    if |a| > 0 {
      assert (a + b)[1..] == a[1..] + b;
      CountConcat(a[1..], b, c);
    } else {
      assert a + b == b;
    }
  }

  lemma {:induction false} CountAbsent(s: string, c: char)
    ensures c !in s <==> Count(s, c) == 0
  {
    if |s| > 0 {
      CountAbsent(s[1..], c);
      assert s == [s[0]] + s[1..];
    }
  }

  /** `s.replace(c, "")`: every occurrence of `c` deleted, the rest kept in order. */
  function Remove(s: string, c: char): (r: string)
    ensures |r| <= |s| && c !in r
  {
    if |s| == 0 then ""
    else if s[0] == c then Remove(s[1..], c)
    else [s[0]] + Remove(s[1..], c)
  }

  /** Deleting `c` deletes exactly its occurrences: none is left, and the length
      drops by their number. */
  lemma {:induction false} RemoveCount(s: string, c: char)
    ensures c !in Remove(s, c)
    ensures |Remove(s, c)| + Count(s, c) == |s|
  {
    if |s| > 0 {
      RemoveCount(s[1..], c);
    }
  }

  /** Deleting `c` keeps every other character: it occurs after exactly when before. */
  lemma {:induction false} RemoveMembers(s: string, c: char, x: char)
    requires x != c
    ensures x in Remove(s, c) <==> x in s
  {
    if |s| > 0 {
      RemoveMembers(s[1..], c, x);
      assert x in s <==> x == s[0] || x in s[1..];
    }
  }

  /** Deleting a character creates no digit. */
  lemma {:induction false} RemoveKeepsDigit(s: string, c: char)
    requires HasDigit(Remove(s, c))
    ensures HasDigit(s)
  {
    var r := Remove(s, c);
    var k :| 0 <= k < |r| && IsDigit(r[k]);
    assert r[k] in r;
    RemoveMembers(s, c, r[k]);
    var j :| 0 <= j < |s| && s[j] == r[k];
  }

  lemma {:induction false} RemoveConcat(a: string, b: string, c: char)
    ensures Remove(a + b, c) == Remove(a, c) + Remove(b, c)
    decreases |a|
  {
    if |a| == 0 {
      assert a + b == b;
    } else {
      var t := a[1..];
      assert (a + b)[0] == a[0];
      assert (a + b)[1..] == t + b;
      RemoveConcat(t, b, c);
      if a[0] != c {
        assert [a[0]] + (Remove(t, c) + Remove(b, c)) == ([a[0]] + Remove(t, c)) + Remove(b, c);
      }
    }
  }

  lemma {:induction false} RemoveAbsent(s: string, c: char)
    requires c !in s
    ensures Remove(s, c) == s
  {
    if |s| > 0 {
      var t := s[1..];
      assert s[0] != c;
      assert forall j :: 0 <= j < |t| ==> t[j] == s[j + 1];
      RemoveAbsent(t, c);
      assert s == [s[0]] + t;
    }
  }

  /** Deleting one character leaves the count of every other character unchanged. */
  lemma {:induction false} CountRemove(s: string, a: char, c: char)
    requires c != a
    ensures Count(Remove(s, a), c) == Count(s, c)
  {
    if |s| > 0 {
      CountRemove(s[1..], a, c);
      if s[0] != a {
        assert ([s[0]] + Remove(s[1..], a))[1..] == Remove(s[1..], a);
      }
    }
  }

  /** `s.replace(a, b)` for single characters `a` and `b`. */
  function Replace(s: string, a: char, b: char): (r: string)
    ensures |r| == |s|
    ensures forall i :: 0 <= i < |s| ==> r[i] == (if s[i] == a then b else s[i])
  {
    if |s| == 0 then "" else [if s[0] == a then b else s[0]] + Replace(s[1..], a, b)
  }

  lemma {:induction false} ReplaceConcat(x: string, y: string, a: char, b: char)
    ensures Replace(x + y, a, b) == Replace(x, a, b) + Replace(y, a, b)
  {
    // both sides agree index by index, by the contract of Replace
  }

  lemma {:induction false} ReplaceAbsent(s: string, a: char, b: char)
    requires a !in s
    ensures Replace(s, a, b) == s
  {
  }

  /** After turning every `a` into `b`, the `b`s are the old `a`s and `b`s together;
      no other character's count changes. */
  lemma {:induction false} CountReplace(s: string, a: char, b: char, c: char)
    requires a != b
    ensures Count(Replace(s, a, b), c) ==
            if c == b then Count(s, a) + Count(s, b) else if c == a then 0 else Count(s, c)
  {
    if |s| > 0 {
      CountReplace(s[1..], a, b, c);
      assert Replace(s, a, b)[1..] == Replace(s[1..], a, b);
    }
  }

  /** `s.lstrip()`: leading whitespace discarded. */
  function LStrip(s: string): (r: string)
    ensures |r| <= |s|
    ensures |r| > 0 ==> !IsSpace(r[0])
    ensures |r| > 0 ==> r[|r| - 1] == s[|s| - 1]
  {
    if |s| > 0 && IsSpace(s[0]) then LStrip(s[1..]) else s
  }

  /** `s.rstrip()`: trailing whitespace discarded. */
  function RStrip(s: string): (r: string)
    ensures |r| <= |s|
    ensures |r| > 0 ==> !IsSpace(r[|r| - 1])
    ensures |r| > 0 ==> r[0] == s[0]
  {
    if |s| > 0 && IsSpace(s[|s| - 1]) then RStrip(s[..|s| - 1]) else s
  }

  /** `s.strip()`. */
  function Strip(s: string): (r: string)
    ensures |r| <= |s|
    ensures |r| > 0 ==> !IsSpace(r[0]) && !IsSpace(r[|r| - 1])
  {
    RStrip(LStrip(s))
  }

  /** A string that neither starts nor ends with whitespace is its own strip. */
  lemma {:induction false} StripUnchanged(s: string)
    requires |s| > 0 ==> !IsSpace(s[0]) && !IsSpace(s[|s| - 1])
    ensures Strip(s) == s
  {
  }

  lemma {:induction false} LStripSpan(s: string) returns (i: nat)
    ensures i <= |s| && LStrip(s) == s[i..]
    ensures forall k :: 0 <= k < i ==> IsSpace(s[k])
  {
    if |s| > 0 && IsSpace(s[0]) {
      var i' := LStripSpan(s[1..]);
      i := i' + 1;
      assert s[1..][i'..] == s[i..];
      forall k | 0 <= k < i ensures IsSpace(s[k]) {
        if k > 0 {
          assert s[k] == s[1..][k - 1];
        }
      }
    } else {
      i := 0;
    }
  }

  lemma {:induction false} RStripSpan(s: string) returns (j: nat)
    ensures j <= |s| && RStrip(s) == s[..j]
    ensures forall k :: j <= k < |s| ==> IsSpace(s[k])
  {
    if |s| > 0 && IsSpace(s[|s| - 1]) {
      var p := s[..|s| - 1];
      j := RStripSpan(p);
      assert p[..j] == s[..j];
      forall k | j <= k < |s| ensures IsSpace(s[k]) {
        if k < |s| - 1 {
          assert s[k] == p[k];
        }
      }
    } else {
      j := |s|;
    }
  }

  /** `strip()` keeps a middle stretch of the text and discards only whitespace around it;
      with the ends `Strip` ensures, that stretch is the longest one with non-space ends. */
  lemma {:induction false} StripSpan(s: string) returns (i: nat, j: nat)
    ensures i <= j <= |s| && Strip(s) == s[i..j]
    ensures forall k :: 0 <= k < i ==> IsSpace(s[k])
    ensures forall k :: j <= k < |s| ==> IsSpace(s[k])
  {
    i := LStripSpan(s);
    var t := s[i..];
    var j' := RStripSpan(t);
    j := i + j';
    assert t[..j'] == s[i..j];
    forall k | j <= k < |s| ensures IsSpace(s[k]) {
      assert s[k] == t[k - i];
    }
  }

  lemma {:induction false} LStripKeepsCount(s: string, c: char)
    requires !IsSpace(c)
    ensures Count(LStrip(s), c) == Count(s, c)
  {
    if |s| > 0 && IsSpace(s[0]) {
      LStripKeepsCount(s[1..], c);
    }
  }

  lemma {:induction false} RStripKeepsCount(s: string, c: char)
    requires !IsSpace(c)
    ensures Count(RStrip(s), c) == Count(s, c)
  {
    if |s| > 0 && IsSpace(s[|s| - 1]) {
      var p := s[..|s| - 1];
      RStripKeepsCount(p, c);
      assert s == p + [s[|s| - 1]];
      CountConcat(p, [s[|s| - 1]], c);
    }
  }

  /** Stripping discards only whitespace: the count of every other character is kept. */
  lemma {:induction false} StripKeepsCount(s: string, c: char)
    requires !IsSpace(c)
    ensures Count(Strip(s), c) == Count(s, c)
  {
    LStripKeepsCount(s, c);
    RStripKeepsCount(LStrip(s), c);
  }

  lemma {:induction false} LStripSubset(s: string)
    ensures forall x :: x in LStrip(s) ==> x in s
  {
    if |s| > 0 && IsSpace(s[0]) {
      LStripSubset(s[1..]);
    }
  }

  lemma {:induction false} RStripSubset(s: string)
    ensures forall x :: x in RStrip(s) ==> x in s
  {
    if |s| > 0 && IsSpace(s[|s| - 1]) {
      RStripSubset(s[..|s| - 1]);
    }
  }

  /** Stripping keeps only characters of the original. */
  lemma {:induction false} StripSubset(s: string)
    ensures forall x :: x in Strip(s) ==> x in s
  {
    LStripSubset(s);
    RStripSubset(LStrip(s));
  }

  function LowerChar(c: char): char {
    if 'A' <= c <= 'Z' then (c as int + 32) as char else c
  }

  /** `s.lower()` restricted to ASCII letters; see README for why this is exact
      for the comparisons the parsers make. */
  function AsciiLower(s: string): (r: string)
    ensures |r| == |s|
    ensures forall i :: 0 <= i < |s| ==> r[i] == LowerChar(s[i])
  {
    if |s| == 0 then "" else [LowerChar(s[0])] + AsciiLower(s[1..])
  }

  function DigitValue(c: char): nat
    requires IsDigit(c)
  {
    c as int - '0' as int
  }

  /** The number a string of decimal digits denotes (most significant first). */
  function DigitsValue(s: string): nat
    requires AllDigits(s)
  {
    if |s| == 0 then 0 else DigitsValue(s[..|s| - 1]) * 10 + DigitValue(s[|s| - 1])
  }

  /** A digit string with `sep` inserted between every group of three digits,
      counting from the right ("1234567" becomes "1.234.567"). */
  function Group(ds: string, sep: char): string
    decreases |ds|
  {
    if |ds| <= 3 then ds else Group(ds[..|ds| - 3], sep) + [sep] + ds[|ds| - 3..]
  }

  /** Deleting the separators from a grouped digit string gives the digits back. */
  lemma {:induction false} RemoveGroupSeparators(ds: string, sep: char)
    requires sep !in ds
    ensures Remove(Group(ds, sep), sep) == ds
    decreases |ds|
  {
    if |ds| <= 3 {
      RemoveAbsent(ds, sep);
    } else {
      var hi, lo := ds[..|ds| - 3], ds[|ds| - 3..];
      assert sep !in hi && sep !in lo;
      RemoveGroupSeparators(hi, sep);
      RemoveConcat(Group(hi, sep) + [sep], lo, sep);
      RemoveConcat(Group(hi, sep), [sep], sep);
      RemoveAbsent(lo, sep);
      assert Remove([sep], sep) == [];
      assert hi + lo == ds;
    }
  }

  /** A grouped digit string holds only digits and separators. */
  lemma {:induction false} GroupChars(ds: string, sep: char)
    requires AllDigits(ds)
    ensures forall x :: x in Group(ds, sep) ==> IsDigit(x) || x == sep
    ensures |Group(ds, sep)| > 0 <==> |ds| > 0
    decreases |ds|
  {
    if |ds| > 3 {
      GroupChars(ds[..|ds| - 3], sep);
    }
  }
}
