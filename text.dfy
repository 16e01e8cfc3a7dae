/**
 * The Python string operations the parsers rely on: `str.split(sep)`,
 * `str.split()` (runs of whitespace), `str.isdecimal()`, `int()` of a
 * decimal string, `str.lower()` and the slice `s[1:-1]`, restricted to
 * ASCII characters.
 */
module Text {

  /** `str.isspace()` on an ASCII character: tab, line feed, vertical tab,
      form feed, carriage return, the four separators 0x1C-0x1F, and space. */
  predicate IsSpace(c: char)
  {
    c == ' ' || ('\t' <= c <= '\r') || ('\U{1C}' <= c <= '\U{1F}')
  }

  predicate IsDigit(c: char)
  {
    '0' <= c <= '9'
  }

  /** `str.isdecimal()`: non-empty and made of decimal digits only. */
  predicate IsDecimal(s: string)
  {
    |s| > 0 && forall i :: 0 <= i < |s| ==> IsDigit(s[i])
  }

  /** `int(s)` of a string of decimal digits. */
  function DecimalValue(s: string): nat
    requires forall i :: 0 <= i < |s| ==> IsDigit(s[i])
  {
    if |s| == 0 then 0
    else
      assert IsDigit(s[|s| - 1]);
      DecimalValue(s[..|s| - 1]) * 10 + (s[|s| - 1] as int - '0' as int)
  }

  function LowerChar(c: char): char
  {
    if 'A' <= c <= 'Z' then (c as int - 'A' as int + 'a' as int) as char else c
  }

  /** `str.lower()` on ASCII letters: no capital is left, exactly the
      capitals change, each to the letter 32 code points above it. */
  function Lower(s: string): (r: string)
    ensures |r| == |s|
    ensures forall i :: 0 <= i < |r| ==> !('A' <= r[i] <= 'Z')
    ensures forall i :: 0 <= i < |s| ==> (r[i] != s[i] <==> 'A' <= s[i] <= 'Z')
    ensures forall i :: 0 <= i < |s| && 'A' <= s[i] <= 'Z' ==> r[i] as int == s[i] as int + 32
  {
    seq(|s|, i requires 0 <= i < |s| => LowerChar(s[i]))
  }

  /** The slice `s[1:-1]`: `s` without its first and last character, or
      the empty string when `s` is shorter than two characters. */
  function Inner(s: string): (r: string)
    ensures |s| >= 2 ==> [s[0]] + r + [s[|s| - 1]] == s
    ensures |s| < 2 ==> r == ""
  {
    if |s| >= 2 then s[1..|s| - 1] else ""
  }

  // ---------------------------------------------------------------------
  // str.split(sep)
  // ---------------------------------------------------------------------

  /** `s.split(sep)` for a one-character separator: always at least one
      piece, and no piece contains the separator. */
  function SplitOn(s: string, sep: char): (parts: seq<string>)
    ensures |parts| >= 1
    ensures forall i :: 0 <= i < |parts| ==> sep !in parts[i]
    decreases |s|
  {
    if |s| == 0 then [""]
    else
      var rest := SplitOn(s[1..], sep);
      if s[0] == sep then [""] + rest
      else [[s[0]] + rest[0]] + rest[1..]
  }

  /** `sep.join(parts)`. */
  function Join(parts: seq<string>, sep: char): string
    requires |parts| >= 1
    decreases |parts|
  {
    if |parts| == 1 then parts[0] else parts[0] + [sep] + Join(parts[1..], sep)
  }

  /** Joining the pieces of a split gives back the original string. */
  lemma {:induction false} JoinSplitOn(s: string, sep: char)
    ensures Join(SplitOn(s, sep), sep) == s
    decreases |s|
  {
    if |s| > 0 {
      var rest := SplitOn(s[1..], sep);
      JoinSplitOn(s[1..], sep);
      if s[0] == sep {
        assert SplitOn(s, sep) == [""] + rest;
        assert ([""] + rest)[1..] == rest;
      } else {
        var parts := SplitOn(s, sep);
        assert parts == [[s[0]] + rest[0]] + rest[1..];
        if |rest| == 1 {
          assert parts == [[s[0]] + rest[0]];
        } else {
          assert parts[1..] == rest[1..];
          assert Join(rest, sep) == rest[0] + [sep] + Join(rest[1..], sep);
        }
        assert s == [s[0]] + s[1..];
      }
    }
  }

  /** A string free of the separator splits into itself alone. */
  lemma {:induction false} SplitOnPlain(s: string, sep: char)
    requires sep !in s
    ensures SplitOn(s, sep) == [s]
    decreases |s|
  {
    if |s| > 0 {
      assert sep !in s[1..] by {
        forall i | 0 <= i < |s[1..]| ensures s[1..][i] != sep {
          assert s[1..][i] == s[i + 1];
        }
      }
      SplitOnPlain(s[1..], sep);
      assert s == [s[0]] + s[1..];
    }
  }

  /** A leading piece free of the separator comes off as the first piece. */
  lemma {:induction false} SplitOnCons(a: string, sep: char, b: string)
    requires sep !in a
    ensures SplitOn(a + [sep] + b, sep) == [a] + SplitOn(b, sep)
    decreases |a|
  {
    var s := a + [sep] + b;
    if |a| == 0 {
      assert s == [sep] + b;
      assert s[1..] == b;
    } else {
      assert s[0] == a[0];
      assert s[1..] == a[1..] + [sep] + b;
      assert sep !in a[1..] by {
        forall i | 0 <= i < |a[1..]| ensures a[1..][i] != sep {
          assert a[1..][i] == a[i + 1];
        }
      }
      SplitOnCons(a[1..], sep, b);
      assert [a[0]] + a[1..] == a;
    }
  }

  /** Splitting a join gives back the pieces when none contains the separator. */
  lemma {:induction false} SplitOnJoin(parts: seq<string>, sep: char)
    requires |parts| >= 1
    requires forall i :: 0 <= i < |parts| ==> sep !in parts[i]
    ensures SplitOn(Join(parts, sep), sep) == parts
    decreases |parts|
  {
    if |parts| == 1 {
      SplitOnPlain(parts[0], sep);
    } else {
      SplitOnJoin(parts[1..], sep);
      SplitOnCons(parts[0], sep, Join(parts[1..], sep));
      assert [parts[0]] + parts[1..] == parts;
    }
  }

  // ---------------------------------------------------------------------
  // str.split() with no argument
  // ---------------------------------------------------------------------

  /** A field of `str.split()`: non-empty and free of whitespace. */
  predicate IsWord(w: string)
  {
    |w| > 0 && forall i :: 0 <= i < |w| ==> !IsSpace(w[i])
  }

  /** The length of the leading run of non-whitespace characters. */
  function WordLen(s: string): (n: nat)
    ensures n <= |s|
    ensures forall i :: 0 <= i < n ==> !IsSpace(s[i])
    ensures n < |s| ==> IsSpace(s[n])
    decreases |s|
  {
    if |s| == 0 || IsSpace(s[0]) then 0 else 1 + WordLen(s[1..])
  }

  /** `s.split()`: the maximal runs of non-whitespace characters, in order. */
  function Fields(s: string): (r: seq<string>)
    ensures forall i :: 0 <= i < |r| ==> IsWord(r[i])
    decreases |s|
  {
    if |s| == 0 then []
    else if IsSpace(s[0]) then Fields(s[1..])
    else
      var n := WordLen(s);
      [s[..n]] + Fields(s[n..])
  }

  lemma {:induction false} WordLenOfWord(w: string, rest: string)
    requires IsWord(w)
    requires |rest| == 0 || IsSpace(rest[0])
    ensures WordLen(w + rest) == |w|
    decreases |w|
  {
    var s := w + rest;
    if |w| > 1 {
      assert s[1..] == w[1..] + rest;
      assert IsWord(w[1..]) by {
        forall i | 0 <= i < |w[1..]| ensures !IsSpace(w[1..][i]) {
          assert w[1..][i] == w[i + 1];
        }
      }
      WordLenOfWord(w[1..], rest);
    } else {
      assert s[1..] == rest;
    }
  }

  /** A word followed by a whitespace character is split off as the first field. */
  lemma FieldsCons(w: string, c: char, rest: string)
    requires IsWord(w) && IsSpace(c)
    ensures Fields(w + [c] + rest) == [w] + Fields(rest)
  {
    var s := w + [c] + rest;
    assert s == w + ([c] + rest);
    WordLenOfWord(w, [c] + rest);
    assert s[..|w|] == w;
    assert s[|w|..] == [c] + rest;
    assert ([c] + rest)[1..] == rest;
  }

  /** A single word is its own only field. */
  lemma FieldsWord(w: string)
    requires IsWord(w)
    ensures Fields(w) == [w]
  {
    WordLenOfWord(w, "");
    assert w + "" == w;
    assert w[..|w|] == w && w[|w|..] == "";
  }
}
