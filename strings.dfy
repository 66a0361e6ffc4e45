/** The handful of Python `str` operations the harness and the analysis script
    rely on: `in`, `split` on one character, `join`, `replace` of one
    character, `isnumeric`/`int` on ASCII digits, and the code-point ordering
    that `sorted` uses. */
module Strings {

  /** Python's `t in s` for strings: `t` occurs as a contiguous block of `s`. */
  predicate Contains(s: string, t: string)
    decreases |s|
  {
    t <= s || (|s| > 0 && Contains(s[1..], t))
  }

  /** `Contains` agrees with the positional reading of `in`. */
  lemma {:induction false} ContainsAt(s: string, t: string)
    ensures Contains(s, t) <==> exists i :: 0 <= i <= |s| - |t| && t <= s[i..]
    decreases |s|
  {
    if |s| > 0 {
      ContainsAt(s[1..], t);
      if Contains(s[1..], t) {
        var i :| 0 <= i <= |s[1..]| - |t| && t <= s[1..][i..];
        assert s[1..][i..] == s[i + 1..];
      }
      if exists i :: 0 <= i <= |s| - |t| && t <= s[i..] {
        var i :| 0 <= i <= |s| - |t| && t <= s[i..];
        if i > 0 {
          assert s[1..][i - 1..] == s[i..];
        }
      }
    } else {
      if exists i :: 0 <= i <= |s| - |t| && t <= s[i..] {
        var i :| 0 <= i <= |s| - |t| && t <= s[i..];
        assert i == 0;
      }
    }
  }

  /** Text that contains `t` still contains it after more text is added on
      either side. */
  lemma {:induction false} ContainsExtend(a: string, s: string, b: string, t: string)
    requires Contains(s, t)
    ensures Contains(a + s + b, t)
    decreases |a|, |s|
  {
    if |a| > 0 {
      assert (a + s + b)[1..] == a[1..] + s + b;
      ContainsExtend(a[1..], s, b, t);
    } else if t <= s {
      assert a + s + b == s + b;
    } else {
      assert (a + s + b)[1..] == s[1..] + b;
      ContainsExtend([], s[1..], b, t);
      assert [] + s[1..] + b == s[1..] + b;
    }
  }

  /** A text without the character `c` does not contain any text that has `c`. */
  lemma {:induction false} NoCharNoContains(s: string, t: string, c: char)
    requires c !in s && c in t
    ensures !Contains(s, t)
    decreases |s|
  {
    if |s| > 0 {
      NoCharNoContains(s[1..], t, c);
    }
  }

  /** Joins `parts` with `sep` between consecutive parts, like `sep.join(parts)`. */
  function Join(parts: seq<string>, sep: string): string
    decreases |parts|
  {
    if |parts| == 0 then ""
    else if |parts| == 1 then parts[0]
    else parts[0] + sep + Join(parts[1..], sep)
  }

  /** Python's `s.split(c)` for a one-character separator: at least one field,
      no field contains `c`, and joining the fields with `c` gives back `s`. */
  function Split(s: string, c: char): (r: seq<string>)
    ensures |r| >= 1
    ensures forall k :: 0 <= k < |r| ==> c !in r[k]
    ensures Join(r, [c]) == s
    decreases |s|
  {
    if |s| == 0 then [""]
    else if s[0] == c then [""] + Split(s[1..], c)
    else
      var rest := Split(s[1..], c);
      [[s[0]] + rest[0]] + rest[1..]
  }

  /** The first field of `s.split(c)` is the text before the first `c`; there
      is a second field exactly when `s` contains `c`. */
  lemma {:induction false} SplitFirst(s: string, c: char)
    ensures Split(s, c)[0] <= s
    ensures |Split(s, c)| > 1 <==> c in s
    ensures c in s ==> s[|Split(s, c)[0]|] == c
    decreases |s|
  {
    if |s| > 0 && s[0] != c {
      SplitFirst(s[1..], c);
      assert c in s <==> c in s[1..];
    }
  }

  /** `split` is the inverse of `join` on fields that do not contain the separator. */
  lemma {:induction false} SplitJoin(parts: seq<string>, c: char)
    requires |parts| >= 1
    requires forall k :: 0 <= k < |parts| ==> c !in parts[k]
    ensures Split(Join(parts, [c]), c) == parts
    decreases |parts|, |parts[0]|
  {
    var p := parts[0];
    if |p| > 0 {
      assert p[0] != c;
      assert [p[0]] + p[1..] == p;
      var parts' := [p[1..]] + parts[1..];
      assert Join(parts, [c]) == [p[0]] + Join(parts', [c]) by {
        if |parts| > 1 {
          assert parts'[1..] == parts[1..];
        }
      }
      SplitJoin(parts', c);
      assert (Join(parts, [c]))[1..] == Join(parts', [c]);
    } else if |parts| > 1 {
      SplitJoin(parts[1..], c);
      assert Join(parts, [c])[1..] == Join(parts[1..], [c]);
    }
  }

  /** `s.replace(a, b)` for single characters. */
  function Replace(s: string, a: char, b: char): (r: string)
    ensures |r| == |s|
    ensures forall k :: 0 <= k < |s| ==> r[k] == (if s[k] == a then b else s[k])
  {
    seq(|s|, k requires 0 <= k < |s| => if s[k] == a then b else s[k])
  }

  predicate IsDigit(ch: char) {
    '0' <= ch <= '9'
  }

  /** `str.isnumeric()` restricted to ASCII: at least one character, all digits. */
  predicate IsNumeric(s: string) {
    |s| > 0 && forall k :: 0 <= k < |s| ==> IsDigit(s[k])
  }

  /** `int(s)` for a string of ASCII digits. */
  function DecimalValue(s: string): (n: nat)
    requires forall k :: 0 <= k < |s| ==> IsDigit(s[k])
    decreases |s|
  {
    if |s| == 0 then 0
    else
      var d := s[|s| - 1] as int - '0' as int;
      assert IsDigit(s[|s| - 1]);
      10 * DecimalValue(s[..|s| - 1]) + d
  }

  /** The decimal text of a natural number, as `str(n)` writes it. */
  function NatToString(n: nat): (r: string)
    ensures IsNumeric(r)
    ensures DecimalValue(r) == n
    decreases n
  {
    var d := [('0' as int + n % 10) as char];
    if n < 10 then d
    else
      var r := NatToString(n / 10) + d;
      assert r[..|r| - 1] == NatToString(n / 10);
      r
  }

  /** Python's string comparison `a < b`: ordering by code point, a proper
      prefix before any of its extensions. */
  predicate Less(a: string, b: string)
    decreases |a|
  {
    if |a| == 0 then |b| > 0
    else if |b| == 0 then false
    else if a[0] == b[0] then Less(a[1..], b[1..])
    else a[0] < b[0]
  }

  lemma {:induction false} LessIrreflexive(a: string)
    ensures !Less(a, a)
    decreases |a|
  {
    if |a| > 0 {
      LessIrreflexive(a[1..]);
    }
  }

  lemma {:induction false} LessTransitive(a: string, b: string, c: string)
    requires Less(a, b) && Less(b, c)
    ensures Less(a, c)
    decreases |a|
  {
    if |a| > 0 && a[0] == b[0] && b[0] == c[0] {
      LessTransitive(a[1..], b[1..], c[1..]);
    }
  }

  lemma {:induction false} LessTotal(a: string, b: string)
    ensures a == b || Less(a, b) || Less(b, a)
    decreases |a|
  {
    if |a| > 0 && |b| > 0 && a[0] == b[0] {
      LessTotal(a[1..], b[1..]);
      if a[1..] == b[1..] {
        assert a == [a[0]] + a[1..] && b == [b[0]] + b[1..];
      }
    }
  }

  lemma {:induction false} LessAsymmetric(a: string, b: string)
    requires Less(a, b)
    ensures !Less(b, a)
    decreases |a|
  {
    if |a| > 0 && a[0] == b[0] {
      LessAsymmetric(a[1..], b[1..]);
    }
  }
}
