/**
 * The string primitives the application relies on, with JavaScript's meaning:
 * the whitespace set that `String.prototype.trim` strips and the regular-expression
 * class `\s` matches, `trim`, `split` on one character, `join`, and `toLowerCase`
 * (restricted to ASCII letters).
 */
module Strings {

  /** JavaScript LineTerminator: the characters `.` in a regular expression does not match. */
  predicate IsLineTerminator(c: char)
  {
    c == '\n' || c == '\r' || c == '\U{2028}' || c == '\U{2029}'
  }

  /** JavaScript WhiteSpace or LineTerminator: what `trim()` removes and `\s` matches. */
  predicate IsSpace(c: char)
  {
    IsLineTerminator(c) ||
    c == '\t' || c == '\U{000B}' || c == '\U{000C}' || c == ' ' || c == '\U{00A0}' ||
    c == '\U{1680}' || ('\U{2000}' <= c <= '\U{200A}') || c == '\U{202F}' ||
    c == '\U{205F}' || c == '\U{3000}' || c == '\U{FEFF}'
  }

  predicate AllSpace(s: string)
  {
    forall i :: 0 <= i < |s| ==> IsSpace(s[i])
  }

  predicate NoSpace(s: string)
  {
    forall i :: 0 <= i < |s| ==> !IsSpace(s[i])
  }

  /** `s` with its leading whitespace removed. */
  function TrimStart(s: string): (r: string)
    ensures |r| <= |s| && r == s[|s| - |r|..]
    ensures AllSpace(s[..|s| - |r|])
    ensures r == [] || !IsSpace(r[0])
    ensures |s| > 0 && IsSpace(s[0]) ==> |r| < |s|
  {
    if |s| > 0 && IsSpace(s[0]) then
      var r := TrimStart(s[1..]);
      assert s[1..][|s| - 1 - |r|..] == s[|s| - |r|..];
      assert s[..|s| - |r|] == [s[0]] + s[1..][..|s| - 1 - |r|];
      r
    else s
  }

  /** `s` with its trailing whitespace removed. */
  function TrimEnd(s: string): (r: string)
    ensures |r| <= |s| && r == s[..|r|]
    ensures AllSpace(s[|r|..])
    ensures r == [] || !IsSpace(r[|r| - 1])
  {
    if |s| > 0 && IsSpace(s[|s| - 1]) then TrimEnd(s[..|s| - 1]) else s
  }

  /** JavaScript `s.trim()`: the part of `s` between its leading and trailing whitespace. */
  function Trim(s: string): (r: string)
    ensures |r| <= |s|
    ensures exists i :: 0 <= i <= |s| - |r| && r == s[i..i + |r|] && AllSpace(s[..i]) && AllSpace(s[i + |r|..])
    ensures r != [] ==> !IsSpace(r[0]) && !IsSpace(r[|r| - 1])
  {
    var t := TrimStart(s);
    var r := TrimEnd(t);
    BetweenSpaces(s, |s| - |t|, r);
    r
  }

  /** A part of a suffix, with whitespace around it, is the same part of the whole string. */
  lemma BetweenSpaces(s: string, i: nat, r: string)
    requires i + |r| <= |s| && s[i..][..|r|] == r && AllSpace(s[i..][|r|..])
    ensures r == s[i..i + |r|] && AllSpace(s[i + |r|..])
  {
    assert s[i..][|r|..] == s[i + |r|..];
  }

  /**
   * JavaScript's `length`: the number of UTF-16 code units, where a character outside the
   * Basic Multilingual Plane takes a surrogate pair.
   */
  function Utf16Length(s: string): (n: nat)
    ensures |s| <= n <= 2 * |s|
    ensures n == 0 <==> s == []
  {
    if s == [] then 0 else (if s[0] as int >= 0x1_0000 then 2 else 1) + Utf16Length(s[1..])
  }

  /** Within the Basic Multilingual Plane, `length` counts characters. */
  lemma {:induction false} Utf16LengthOfBmp(s: string)
    requires forall k :: 0 <= k < |s| ==> s[k] as int < 0x1_0000
    ensures Utf16Length(s) == |s|
  {
    if s != [] {
      Utf16LengthOfBmp(s[1..]);
    }
  }

  /** Each character outside the Basic Multilingual Plane counts twice. */
  lemma {:induction false} Utf16LengthOfAstral(s: string)
    requires forall k :: 0 <= k < |s| ==> s[k] as int >= 0x1_0000
    ensures Utf16Length(s) == 2 * |s|
  {
    if s != [] {
      Utf16LengthOfAstral(s[1..]);
    }
  }

  /** The code units of a concatenation are those of its parts, added up. */
  lemma {:induction false} Utf16Append(a: string, b: string)
    ensures Utf16Length(a + b) == Utf16Length(a) + Utf16Length(b)
  {
    if a == [] {
      assert a + b == b;
    } else {
      assert (a + b)[0] == a[0] && (a + b)[1..] == a[1..] + b;
      Utf16Append(a[1..], b);
    }
  }

  /** A string trims to the empty string exactly when it is all whitespace: JavaScript's `!s.trim()`. */
  lemma TrimEmptyIff(s: string)
    ensures Trim(s) == [] <==> AllSpace(s)
  {
    var t := TrimStart(s);
    var off := |s| - |t|;
    if Trim(s) == [] {
      assert t == [] by { assert AllSpace(t); }
      assert s[..off] == s;
    }
  }

  /** Trimming twice is trimming once. */
  lemma TrimIdempotent(s: string)
    ensures Trim(Trim(s)) == Trim(s)
  {
    var r := Trim(s);
    assert TrimStart(r) == r;
    assert TrimEnd(r) == r;
  }

  /** JavaScript `toLowerCase` on one character; only ASCII letters are mapped. */
  function LowerChar(c: char): (d: char)
    ensures ('A' <= c <= 'Z') ==> 'a' <= d <= 'z'
    ensures !('A' <= c <= 'Z') ==> d == c
  {
    if 'A' <= c <= 'Z' then (c as int + 32) as char else c
  }

  /** JavaScript `s.toLowerCase()` (ASCII letters only). */
  function ToLower(s: string): (r: string)
    ensures |r| == |s|
    ensures forall i :: 0 <= i < |s| ==> r[i] == LowerChar(s[i])
  {
    seq(|s|, i requires 0 <= i < |s| => LowerChar(s[i]))
  }

  /** Lower-casing maps a character to `sep` only when it already was `sep`, for a separator that is not a letter. */
  lemma ToLowerKeepsSeparator(s: string, sep: char)
    requires !('a' <= sep <= 'z') && !('A' <= sep <= 'Z')
    ensures sep in ToLower(s) <==> sep in s
    ensures ToLower(s) == [] <==> s == []
  {
    var r := ToLower(s);
    if sep in r {
      var i :| 0 <= i < |r| && r[i] == sep;
      assert s[i] == sep;
    }
    if sep in s {
      var i :| 0 <= i < |s| && s[i] == sep;
      assert r[i] == sep;
    }
  }

  /** JavaScript `s.split(sep)` for a one-character separator: the fields between separators. */
  function Split(s: string, sep: char): (r: seq<string>)
    ensures |r| >= 1
    ensures forall k :: 0 <= k < |r| ==> sep !in r[k]
  {
    if |s| == 0 then [""]
    else
      var rest := Split(s[1..], sep);
      if s[0] == sep then [""] + rest
      else [[s[0]] + rest[0]] + rest[1..]
  }

  /** JavaScript `parts.join(sep)`. */
  function Join(parts: seq<string>, sep: string): string
  {
    if |parts| == 0 then ""
    else if |parts| == 1 then parts[0]
    else parts[0] + sep + Join(parts[1..], sep)
  }

  /** Splitting and joining back with the same separator gives the original string. */
  lemma {:induction false} SplitJoin(s: string, sep: char)
    ensures Join(Split(s, sep), [sep]) == s
  {
    if |s| > 0 {
      var rest := Split(s[1..], sep);
      SplitJoin(s[1..], sep);
      if s[0] == sep {
        assert Split(s, sep) == [""] + rest;
        assert Join([""] + rest, [sep]) == "" + [sep] + Join(rest, [sep]) by {
          assert ([""] + rest)[1..] == rest;
        }
        assert s == [s[0]] + s[1..];
      } else {
        var head := [s[0]] + rest[0];
        assert Split(s, sep) == [head] + rest[1..];
        if |rest| == 1 {
          assert Join([head], [sep]) == head;
          assert s == [s[0]] + s[1..];
        } else {
          assert ([head] + rest[1..])[1..] == rest[1..];
          assert Join(rest, [sep]) == rest[0] + [sep] + Join(rest[1..], [sep]);
          assert s == [s[0]] + s[1..];
        }
      }
    }
  }

  /** A string without the separator splits into itself alone. */
  lemma {:induction false} SplitWithoutSeparator(s: string, sep: char)
    requires sep !in s
    ensures Split(s, sep) == [s]
  {
    if |s| > 0 {
      assert sep !in s[1..] by { assert forall i :: 0 <= i < |s| - 1 ==> s[1..][i] == s[i + 1]; }
      SplitWithoutSeparator(s[1..], sep);
      assert s == [s[0]] + s[1..];
    }
  }

  /** A string with a separator splits into the text before its first occurrence, then the split of the rest. */
  lemma {:induction false} SplitAtFirst(s: string, sep: char, i: nat)
    requires i < |s| && s[i] == sep && sep !in s[..i]
    ensures Split(s, sep) == [s[..i]] + Split(s[i + 1..], sep)
  {
    if i > 0 {
      assert s[1..][i - 1] == sep;
      assert s[1..][..i - 1] == s[1..i];
      assert sep !in s[1..i] by { assert forall k :: 0 <= k < i - 1 ==> s[1..i][k] == s[..i][k + 1]; }
      SplitAtFirst(s[1..], sep, i - 1);
      assert s[1..][i - 1 + 1..] == s[i + 1..];
      assert s[0] != sep by { assert s[..i][0] == s[0]; }
      assert s[..i] == [s[0]] + s[1..i];
    }
  }

  /** The first field of a split is the text up to the first separator, or all of it when there is none. */
  lemma {:induction false} FirstField(s: string, sep: char)
    ensures var f := Split(s, sep)[0];
      f <= s && (|f| == |s| || s[|f|] == sep)
  {
    if |s| > 0 && s[0] != sep {
      FirstField(s[1..], sep);
      assert s == [s[0]] + s[1..];
    }
  }

  /**
   * The last field of a split is the longest suffix without the separator:
   * it is the whole string exactly when the string holds no separator, and otherwise it follows one.
   */
  lemma {:induction false} LastField(s: string, sep: char)
    ensures var l := Split(s, sep)[|Split(s, sep)| - 1];
      |l| <= |s| && l == s[|s| - |l|..] && sep !in l &&
      (|l| == |s| <==> |Split(s, sep)| == 1) &&
      (|l| < |s| ==> s[|s| - |l| - 1] == sep)
  {
    if |s| > 0 {
      LastField(s[1..], sep);
      var rest := Split(s[1..], sep);
      var l := rest[|rest| - 1];
      if s[0] != sep && |rest| == 1 {
        assert Split(s, sep) == [[s[0]] + l];
        assert s == [s[0]] + s[1..];
      } else {
        assert Split(s, sep)[|Split(s, sep)| - 1] == l;
        assert s[1..][|s| - 1 - |l|..] == s[|s| - |l|..];
        if |l| < |s| - 1 {
          assert s[1..][|s| - 1 - |l| - 1] == s[|s| - |l| - 1];
        }
      }
    }
  }
}
