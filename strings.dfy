/**
  String helpers with the semantics of the Qt string operations the theme
  loader and the status bar rely on: `QString::split` (empty parts kept),
  `trimmed`, `endsWith`, `left`, `toInt`, `leftJustified` and `replace`.
  Strings are sequences of characters; no encoding is modelled.
 */
module Strings {

  /** The characters `QString::trimmed` and `QString::toInt` treat as white space
      (`QChar::isSpace` in Qt 4): the controls U+0009..U+000D and every character of
      the Unicode categories Zs, Zl and Zp in the Unicode data Qt 4 ships, where
      U+180E is still a space separator. */
  predicate IsSpace(c: char) {
    c in WhiteSpace
  }

  /** The white-space characters of Qt 4, one by one. */
  const WhiteSpace: set<char> :=
    {9 as char, 10 as char, 11 as char, 12 as char, 13 as char, ' ', 0xA0 as char, 0x1680 as char, 0x180E as char,
     0x2000 as char, 0x2001 as char, 0x2002 as char, 0x2003 as char, 0x2004 as char, 0x2005 as char,
     0x2006 as char, 0x2007 as char, 0x2008 as char, 0x2009 as char, 0x200A as char,
     0x2028 as char, 0x2029 as char, 0x202F as char, 0x205F as char, 0x3000 as char}

  /** `QString::trimmed`: white space removed from both ends. */
  function Trim(s: string): (t: string)
    ensures |t| <= |s|
    ensures |t| > 0 ==> !IsSpace(t[0]) && !IsSpace(t[|t| - 1])
    ensures forall i :: 0 <= i < |s| && !IsSpace(s[i]) ==> |t| > 0
    decreases |s|
  {
    if |s| == 0 then s
    else if IsSpace(s[0]) then Trim(s[1..])
    else if IsSpace(s[|s| - 1]) then Trim(s[..|s| - 1])
    else s
  }

  /** `t` is `s[i..j]` with only white space before `i` and after `j`. */
  ghost predicate InfixBetweenSpace(s: string, t: string, i: int, j: int) {
    && 0 <= i <= j <= |s| && t == s[i..j]
    && (forall k :: 0 <= k < i ==> IsSpace(s[k]))
    && (forall k :: j <= k < |s| ==> IsSpace(s[k]))
  }

  /** The trimmed string is the part of `s` left between a run of white space at its
      start and a run at its end. */
  lemma {:induction false} TrimIsInfix(s: string)
    ensures exists i, j :: InfixBetweenSpace(s, Trim(s), i, j)
    decreases |s|
  {
    if |s| == 0 {
      assert InfixBetweenSpace(s, Trim(s), 0, 0);
    } else if IsSpace(s[0]) {
      TrimIsInfix(s[1..]);
      var i, j :| InfixBetweenSpace(s[1..], Trim(s[1..]), i, j);
      TrimFront(s);
      InfixDropFront(s, Trim(s), i, j);
    } else if IsSpace(s[|s| - 1]) {
      TrimIsInfix(s[..|s| - 1]);
      var i, j :| InfixBetweenSpace(s[..|s| - 1], Trim(s[..|s| - 1]), i, j);
      TrimBack(s);
      InfixDropBack(s, Trim(s), i, j);
    } else {
      assert InfixBetweenSpace(s, Trim(s), 0, |s|);
    }
  }

  /** The step of `TrimIsInfix` that drops a leading space. */
  lemma InfixDropFront(s: string, t: string, i: int, j: int)
    requires |s| > 0 && IsSpace(s[0])
    requires InfixBetweenSpace(s[1..], t, i, j)
    ensures InfixBetweenSpace(s, t, i + 1, j + 1)
  {
    assert s[1..][i..j] == s[i + 1..j + 1];
    LeadingSpace(s, i + 1);
    TrailingSpace(s, j + 1);
  }

  /** Trimming skips a leading space. */
  lemma TrimFront(s: string)
    requires |s| > 0 && IsSpace(s[0])
    ensures Trim(s) == Trim(s[1..])
  {
  }

  /** Leading white space of `s[1..]` after a leading space is leading white space of `s`. */
  lemma LeadingSpace(s: string, n: int)
    requires 0 < n <= |s| && IsSpace(s[0])
    requires forall k :: 0 <= k < n - 1 ==> IsSpace(s[1..][k])
    ensures forall k :: 0 <= k < n ==> IsSpace(s[k])
  {
    forall k | 0 < k < n ensures IsSpace(s[k]) {
      assert s[k] == s[1..][k - 1];
    }
  }

  /** Trailing white space of `s[1..]` is trailing white space of `s`. */
  lemma TrailingSpace(s: string, n: int)
    requires 0 < n <= |s|
    requires forall k :: n - 1 <= k < |s| - 1 ==> IsSpace(s[1..][k])
    ensures forall k :: n <= k < |s| ==> IsSpace(s[k])
  {
    forall k | n <= k < |s| ensures IsSpace(s[k]) {
      assert s[k] == s[1..][k - 1];
    }
  }

  /** The step of `TrimIsInfix` that drops a trailing space. */
  lemma InfixDropBack(s: string, t: string, i: int, j: int)
    requires |s| > 0 && !IsSpace(s[0]) && IsSpace(s[|s| - 1])
    requires InfixBetweenSpace(s[..|s| - 1], t, i, j)
    ensures InfixBetweenSpace(s, t, i, j)
  {
    var u := s[..|s| - 1];
    if |u| > 0 {
      assert u[0] == s[0];
    }
    assert i == 0;
    assert u[i..j] == s[i..j];
    forall k | j <= k < |s| ensures IsSpace(s[k]) {
      if k < |u| { assert s[k] == u[k]; }
    }
  }

  /** Trimming skips a trailing space once the first character is not a space. */
  lemma TrimBack(s: string)
    requires |s| > 0 && !IsSpace(s[0]) && IsSpace(s[|s| - 1])
    ensures Trim(s) == Trim(s[..|s| - 1])
  {
  }

  lemma TrimUnchanged(s: string)
    requires |s| > 0 ==> !IsSpace(s[0]) && !IsSpace(s[|s| - 1])
    ensures Trim(s) == s
  {
  }

  /** `QString::endsWith`. */
  predicate EndsWith(s: string, suffix: string) {
    |suffix| <= |s| && s[|s| - |suffix|..] == suffix
  }

  /** `QString::left(n)`: the first `n` characters, the whole string when `n` is negative or too large. */
  function Left(s: string, n: int): (r: string)
    ensures |r| <= |s|
    ensures r <= s
    ensures 0 <= n < |s| ==> |r| == n
  {
    if n < 0 || n >= |s| then s else s[..n]
  }

  /** `QString::split(sep)` keeping empty parts: always at least one part, none holding `sep`. */
  function Split(s: string, sep: char): (parts: seq<string>)
    ensures |parts| >= 1
    ensures forall i :: 0 <= i < |parts| ==> sep !in parts[i]
    decreases |s|
  {
    if |s| == 0 then [""]
    else
      var rest := Split(s[1..], sep);
      if s[0] == sep then [""] + rest
      else [[s[0]] + rest[0]] + rest[1..]
  }

  /** `QStringList::join(sep)`, the inverse of `Split`. */
  function Join(parts: seq<string>, sep: char): string
    decreases |parts|
  {
    if |parts| == 0 then ""
    else if |parts| == 1 then parts[0]
    else parts[0] + [sep] + Join(parts[1..], sep)
  }

  /** Joining the parts of a split gives back the string. */
  lemma {:induction false} JoinSplit(s: string, sep: char)
    ensures Join(Split(s, sep), sep) == s
    decreases |s|
  {
    if |s| > 0 {
      JoinSplit(s[1..], sep);
      var rest := Split(s[1..], sep);
      if s[0] == sep {
        assert Split(s, sep) == [""] + rest;
        assert s == [sep] + s[1..];
      } else {
        if |rest| == 1 {
          assert Split(s, sep) == [[s[0]] + rest[0]];
        } else {
          var parts := Split(s, sep);
          assert parts == [[s[0]] + rest[0]] + rest[1..];
          assert parts[1..] == rest[1..];
          assert Join(rest, sep) == rest[0] + [sep] + Join(rest[1..], sep);
        }
        assert s == [s[0]] + s[1..];
      }
    }
  }

  /** A string free of the separator splits into itself alone. */
  lemma {:induction false} SplitNoSep(a: string, sep: char)
    requires sep !in a
    ensures Split(a, sep) == [a]
    decreases |a|
  {
    if |a| > 0 {
      assert a[1..] == a[1..];
      assert sep !in a[1..] by {
        forall i | 0 <= i < |a[1..]| ensures a[1..][i] != sep {
          assert a[1..][i] == a[i + 1];
        }
      }
      SplitNoSep(a[1..], sep);
      assert [a[0]] + a[1..] == a;
    }
  }

  /** A separator-free prefix followed by the separator is split off as the first part. */
  lemma {:induction false} SplitFirst(a: string, sep: char, b: string)
    requires sep !in a
    ensures Split(a + [sep] + b, sep) == [a] + Split(b, sep)
    decreases |a|
  {
    var s := a + [sep] + b;
    if |a| == 0 {
      assert s == [sep] + b;
      assert s[1..] == b;
    } else {
      assert s[1..] == a[1..] + [sep] + b;
      assert sep !in a[1..] by {
        forall i | 0 <= i < |a[1..]| ensures a[1..][i] != sep {
          assert a[1..][i] == a[i + 1];
        }
      }
      SplitFirst(a[1..], sep, b);
      assert [a[0]] + a[1..] == a;
    }
  }

  /** Splitting a join of separator-free parts gives back the parts. */
  lemma {:induction false} SplitJoin(parts: seq<string>, sep: char)
    requires |parts| >= 1
    requires forall i :: 0 <= i < |parts| ==> sep !in parts[i]
    ensures Split(Join(parts, sep), sep) == parts
    decreases |parts|
  {
    if |parts| == 1 {
      SplitNoSep(parts[0], sep);
    } else {
      SplitJoin(parts[1..], sep);
      SplitFirst(parts[0], sep, Join(parts[1..], sep));
      assert [parts[0]] + parts[1..] == parts;
    }
  }

  /** Field `i` of a split list, or the empty string when the list is too short. */
  function Field(parts: seq<string>, i: nat): string {
    if i < |parts| then parts[i] else ""
  }

  /** Reading field `i` of a line written by joining separator-free parts gives
      part `i` back, and the empty string past the last part. */
  lemma FieldOfJoin(parts: seq<string>, sep: char, i: nat)
    requires |parts| >= 1 && forall k :: 0 <= k < |parts| ==> sep !in parts[k]
    ensures i < |parts| ==> Field(Split(Join(parts, sep), sep), i) == parts[i]
    ensures i >= |parts| ==> Field(Split(Join(parts, sep), sep), i) == ""
  {
    SplitJoin(parts, sep);
  }

  // ---------------------------------------------------------------------
  // Integers: QString::toInt (base 10) and its decimal rendering.

  const IntMin: int := -0x8000_0000
  const IntMax: int := 0x7FFF_FFFF

  predicate IsDigit(c: char) { '0' <= c <= '9' }

  predicate AllDigits(s: string) { forall i :: 0 <= i < |s| ==> IsDigit(s[i]) }

  function DigitValue(c: char): nat
    requires IsDigit(c)
  {
    (c as int - '0' as int) as nat
  }

  function DigitChar(d: nat): (c: char)
    requires d < 10
    ensures IsDigit(c) && DigitValue(c) == d
  {
    ('0' as int + d) as char
  }

  /** The value of a string of decimal digits. */
  function DigitsValue(s: string): nat
    requires AllDigits(s)
    decreases |s|
  {
    if |s| == 0 then 0 else DigitsValue(s[..|s| - 1]) * 10 + DigitValue(s[|s| - 1])
  }

  /** `QString::toInt`: surrounding white space allowed, an optional sign, at least
      one decimal digit and nothing else, within the 32-bit range; 0 otherwise. */
  function ToInt(s: string): (n: int)
    ensures IntMin <= n <= IntMax
  {
    var t := Trim(s);
    if |t| == 0 then 0
    else
      var digits := if t[0] == '-' || t[0] == '+' then t[1..] else t;
      if |digits| == 0 || !AllDigits(digits) then 0
      else
        var v := if t[0] == '-' then -(DigitsValue(digits) as int) else DigitsValue(digits);
        if IntMin <= v <= IntMax then v else 0
  }

  /** The decimal digits of a natural number, without leading zeros. */
  function NatToString(n: nat): (s: string)
    ensures |s| > 0 && AllDigits(s)
    decreases n
  {
    if n < 10 then [DigitChar(n)] else NatToString(n / 10) + [DigitChar(n % 10)]
  }

  /** The decimal rendering of an integer, with a leading `-` when negative. */
  function IntToString(n: int): (s: string)
    ensures |s| > 0
  {
    if n < 0 then "-" + NatToString(-n) else NatToString(n)
  }

  lemma {:induction false} NatToStringValue(n: nat)
    ensures DigitsValue(NatToString(n)) == n
    decreases n
  {
    if n >= 10 {
      NatToStringValue(n / 10);
      var s := NatToString(n);
      assert s[..|s| - 1] == NatToString(n / 10);
    }
  }

  /** `ToInt` reads back every 32-bit integer rendered in decimal. */
  lemma ToIntIntToString(n: int)
    requires IntMin <= n <= IntMax
    ensures ToInt(IntToString(n)) == n
  {
    var s := IntToString(n);
    if n < 0 {
      var d := NatToString(-n);
      assert s[1..] == d;
      assert !IsSpace(d[|d| - 1]);
      TrimUnchanged(s);
      NatToStringValue(-n);
    } else {
      TrimUnchanged(s);
      NatToStringValue(n);
    }
  }

  /** A rendered integer has no surrounding white space and holds only a sign and digits,
      so it contains no separator. */
  lemma IntToStringPlain(n: int)
    ensures Trim(IntToString(n)) == IntToString(n)
    ensures forall i :: 0 <= i < |IntToString(n)| ==> IntToString(n)[i] == '-' || IsDigit(IntToString(n)[i])
  {
    var s := IntToString(n);
    if n < 0 {
      var d := NatToString(-n);
      assert s[1..] == d;
      assert !IsSpace(d[|d| - 1]);
    }
    TrimUnchanged(s);
  }

  /** White space around a number does not change what `ToInt` reads. */
  lemma ToIntIgnoresSurroundingSpace(s: string)
    ensures ToInt(" " + s + " ") == ToInt(s)
  {
    assert Trim(" " + s + " ") == Trim(s + " ") by {
      assert (" " + s + " ")[1..] == s + " ";
    }
    assert Trim(s + " ") == Trim(s) by {
      var u := s + " ";
      if |s| > 0 && IsSpace(s[0]) {
        TrimDropFront(s, " ");
      } else {
        assert u[..|u| - 1] == s;
      }
    }
  }

  lemma {:induction false} TrimDropFront(s: string, tail: string)
    requires |tail| > 0 && forall i :: 0 <= i < |tail| ==> IsSpace(tail[i])
    ensures Trim(s + tail) == Trim(s)
    decreases |s| + |tail|
  {
    var u := s + tail;
    if |s| == 0 {
      assert u == tail;
      TrimAllSpace(tail);
    } else if IsSpace(s[0]) {
      assert u[1..] == s[1..] + tail;
      TrimDropFront(s[1..], tail);
    } else {
      assert u[..|u| - 1] == s + tail[..|tail| - 1];
      if |tail| == 1 {
        assert s + tail[..|tail| - 1] == s;
      } else {
        TrimDropFront(s, tail[..|tail| - 1]);
      }
    }
  }

  lemma {:induction false} TrimAllSpace(s: string)
    requires forall i :: 0 <= i < |s| ==> IsSpace(s[i])
    ensures Trim(s) == ""
    decreases |s|
  {
    if |s| > 0 {
      TrimAllSpace(s[1..]);
    }
  }

  // ---------------------------------------------------------------------
  // Colour strings: QString::leftJustified and QString::replace.

  /** `QString::leftJustified(width, fill)`: padded on the right to `width`, never truncated. */
  function LeftJustified(s: string, width: nat, fill: char): (r: string)
    ensures |r| == if |s| >= width then |s| else width
    ensures r[..|s|] == s
    ensures forall i :: |s| <= i < |r| ==> r[i] == fill
  {
    if |s| >= width then s else s + seq(width - |s|, _ => fill)
  }

  /** `QString::replace(from, to)`: every occurrence, scanning left to right. */
  function ReplaceAll(s: string, from: string, to: string): string
    requires |from| > 0
    decreases |s|
  {
    if |s| < |from| then s
    else if s[..|from|] == from then to + ReplaceAll(s[|from|..], from, to)
    else [s[0]] + ReplaceAll(s[1..], from, to)
  }

  /** The colour normalisation of the theme loader: `leftJustified(8, '0').replace("0x", "#")`. */
  function NormalizeColor(c: string): string {
    ReplaceAll(LeftJustified(c, 8, '0'), "0x", "#")
  }

  predicate HasZeroX(s: string) {
    exists i :: 0 <= i < |s| - 1 && s[i] == '0' && s[i + 1] == 'x'
  }

  predicate IsHexDigit(c: char) {
    IsDigit(c) || 'a' <= c <= 'f' || 'A' <= c <= 'F'
  }

  lemma {:induction false} ReplaceFirstChar(s: string)
    requires |s| > 0
    ensures |ReplaceAll(s, "0x", "#")| > 0
    ensures ReplaceAll(s, "0x", "#")[0] == '#' || ReplaceAll(s, "0x", "#")[0] == s[0]
  {
  }

  /** After the replacement no `0x` is left. */
  lemma {:induction false} ReplaceRemovesZeroX(s: string)
    ensures !HasZeroX(ReplaceAll(s, "0x", "#"))
    decreases |s|
  {
    var r := ReplaceAll(s, "0x", "#");
    if |s| < 2 {
    } else if s[..2] == "0x" {
      ReplaceRemovesZeroX(s[2..]);
      var rest := ReplaceAll(s[2..], "0x", "#");
      assert r == "#" + rest;
      forall i | 0 <= i < |r| - 1 ensures !(r[i] == '0' && r[i + 1] == 'x') {
        if i > 0 { assert r[i] == rest[i - 1] && r[i + 1] == rest[i]; }
      }
    } else {
      ReplaceRemovesZeroX(s[1..]);
      var rest := ReplaceAll(s[1..], "0x", "#");
      assert r == [s[0]] + rest;
      ReplaceFirstChar(s[1..]);
      forall i | 0 <= i < |r| - 1 ensures !(r[i] == '0' && r[i + 1] == 'x') {
        if i > 0 {
          assert r[i] == rest[i - 1] && r[i + 1] == rest[i];
        } else {
          assert r[1] == rest[0];
          assert s[0] == '0' ==> s[1] != 'x' by { assert s[..2] == [s[0], s[1]]; }
        }
      }
    }
  }

  /** Hex digits (and the `0` padding) contain no `0x`, so the replacement leaves them alone. */
  lemma {:induction false} ReplaceKeepsHex(h: string)
    requires forall i :: 0 <= i < |h| ==> IsHexDigit(h[i])
    ensures ReplaceAll(h, "0x", "#") == h
    decreases |h|
  {
    if |h| >= 2 {
      assert h[..2] != "0x" by { assert h[..2][1] == h[1]; }
      ReplaceKeepsHex(h[1..]);
      assert [h[0]] + h[1..] == h;
    }
  }

  /** A `0x`-prefixed hex colour of up to six digits becomes `#` followed by the
      digits, padded with zeros to six digits. */
  lemma NormalizeHexColor(h: string)
    requires |h| <= 6
    requires forall i :: 0 <= i < |h| ==> IsHexDigit(h[i])
    ensures NormalizeColor("0x" + h) == "#" + h + seq(6 - |h|, _ => '0')
  {
    var padded := LeftJustified("0x" + h, 8, '0');
    var tail := h + seq(6 - |h|, _ => '0');
    assert padded == "0x" + tail;
    assert padded[..2] == "0x";
    assert padded[2..] == tail;
    ReplaceKeepsHex(tail);
  }
}
