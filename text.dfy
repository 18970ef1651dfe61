/**
  The string primitives the source relies on: `str(n)` / `"{0}".format(n)`
  for counters, `str.split(sep)`, `str.endswith`, the first occurrence of a
  character, and `"{0}".format(x)` for a value that may be `None`.
 */
module Text {
  import opened Wrappers

  predicate IsDigit(c: char) {
    '0' <= c <= '9'
  }

  function DigitChar(d: nat): (c: char)
    requires d < 10
    ensures IsDigit(c)
  {
    (('0' as int) + d) as char
  }

  function DigitValue(c: char): nat
    requires IsDigit(c)
  {
    (c as int) - ('0' as int)
  }

  predicate AllDigits(s: string) {
    forall i :: 0 <= i < |s| ==> IsDigit(s[i])
  }

  /** The decimal text of `n`, as Python's `str(n)` writes it. */
  function NatToString(n: nat): (s: string)
    ensures |s| > 0 && AllDigits(s)
    decreases n
  {
    if n < 10 then [DigitChar(n)] else NatToString(n / 10) + [DigitChar(n % 10)]
  }

  /** The number a string of decimal digits denotes. */
  function ParseNat(s: string): nat
    requires AllDigits(s)
  {
    if |s| == 0 then 0 else 10 * ParseNat(s[..|s| - 1]) + DigitValue(s[|s| - 1])
  }

  /** Reading back the decimal text of `n` gives `n`. */
  lemma {:induction false} ParseNatToString(n: nat)
    ensures ParseNat(NatToString(n)) == n
    decreases n
  {
    var s := NatToString(n);
    if n < 10 {
      assert s[..|s| - 1] == [];
    } else {
      assert s[..|s| - 1] == NatToString(n / 10);
      ParseNatToString(n / 10);
    }
  }

  /** Different counters have different decimal texts. */
  lemma NatToStringInjective(m: nat, n: nat)
    requires NatToString(m) == NatToString(n)
    ensures m == n
  {
    ParseNatToString(m);
    ParseNatToString(n);
  }

  /** Two different digit strings stay different when each is followed by '_' and anything. */
  lemma DigitsThenUnderscore(a: string, b: string, r1: string, r2: string)
    requires AllDigits(a) && AllDigits(b) && a != b
    ensures a + "_" + r1 != b + "_" + r2
  {
    var s1, s2 := a + "_" + r1, b + "_" + r2;
    if |a| < |b| {
      assert s1[|a|] == '_' && s2[|a|] == b[|a|];
    } else if |b| < |a| {
      assert s2[|b|] == '_' && s1[|b|] == a[|b|];
    } else {
      var k :| 0 <= k < |a| && a[k] != b[k];
      assert s1[k] == a[k] && s2[k] == b[k];
    }
  }

  /** The same text in front of two different digit strings, each followed by '_', keeps them apart. */
  lemma PrefixedDigitsDiffer(p: string, a: string, b: string, r1: string, r2: string)
    requires AllDigits(a) && AllDigits(b) && a != b
    ensures p + a + "_" + r1 != p + b + "_" + r2
  {
    DigitsThenUnderscore(a, b, r1, r2);
    var s1, s2 := a + "_" + r1, b + "_" + r2;
    assert p + a + "_" + r1 == p + s1 && p + b + "_" + r2 == p + s2;
    assert (p + s1)[|p|..] == s1 && (p + s2)[|p|..] == s2;
  }

  /** Python's `s.split(sep)` for a one-character separator: the fields between separators. */
  function Split(s: string, sep: char): (parts: seq<string>)
    ensures |parts| > 0
    ensures forall i :: 0 <= i < |parts| ==> sep !in parts[i]
    decreases |s|
  {
    if |s| == 0 then [""]
    else
      var rest := Split(s[1..], sep);
      if s[0] == sep then [""] + rest
      else [[s[0]] + rest[0]] + rest[1..]
  }

  /** Python's `sep.join(parts)`. */
  function Join(parts: seq<string>, sep: char): string
    decreases |parts|
  {
    if |parts| == 0 then ""
    else if |parts| == 1 then parts[0]
    else parts[0] + [sep] + Join(parts[1..], sep)
  }

  /** Splitting loses nothing: joining the fields again gives the string back. */
  lemma {:induction false} JoinSplit(s: string, sep: char)
    ensures Join(Split(s, sep), sep) == s
    decreases |s|
  {
    if |s| > 0 {
      var rest := Split(s[1..], sep);
      JoinSplit(s[1..], sep);
      if s[0] == sep {
        assert Split(s, sep) == [""] + rest;
        assert s == [s[0]] + s[1..];
      } else {
        var parts := Split(s, sep);
        assert parts == [[s[0]] + rest[0]] + rest[1..];
        if |rest| == 1 {
          assert s == [s[0]] + rest[0];
        } else {
          assert parts[1..] == rest[1..];
          assert Join(rest, sep) == rest[0] + [sep] + Join(rest[1..], sep);
          assert s == [s[0]] + s[1..];
        }
      }
    }
  }

  /** A string without the separator is a single field. */
  lemma {:induction false} SplitWithout(s: string, sep: char)
    requires sep !in s
    ensures Split(s, sep) == [s]
    decreases |s|
  {
    if |s| > 0 {
      assert sep !in s[1..] by {
        forall i | 0 <= i < |s[1..]| ensures s[1..][i] != sep {
          assert s[1..][i] == s[i + 1];
        }
      }
      SplitWithout(s[1..], sep);
      assert s == [s[0]] + s[1..];
    }
  }

  /** `k + sep + v` splits into exactly `k` and `v` when neither holds the separator. */
  lemma {:induction false} SplitPair(k: string, v: string, sep: char)
    requires sep !in k && sep !in v
    ensures Split(k + [sep] + v, sep) == [k, v]
    decreases |k|
  {
    var s := k + [sep] + v;
    if |k| == 0 {
      assert s[1..] == v;
      SplitWithout(v, sep);
    } else {
      assert s[1..] == k[1..] + [sep] + v;
      assert sep !in k[1..] by {
        forall i | 0 <= i < |k[1..]| ensures k[1..][i] != sep {
          assert k[1..][i] == k[i + 1];
        }
      }
      SplitPair(k[1..], v, sep);
      assert k == [k[0]] + k[1..];
    }
  }

  /** A string has a second field exactly when it holds the separator. */
  lemma {:induction false} SplitMore(s: string, sep: char)
    ensures |Split(s, sep)| >= 2 <==> sep in s
    decreases |s|
  {
    if |s| > 0 {
      SplitMore(s[1..], sep);
      assert sep in s <==> s[0] == sep || sep in s[1..] by {
        assert s == [s[0]] + s[1..];
      }
    }
  }

  /** A string that splits into exactly two fields is `field0 + sep + field1`. */
  lemma SplitTwo(s: string, sep: char)
    requires |Split(s, sep)| == 2
    ensures s == Split(s, sep)[0] + [sep] + Split(s, sep)[1]
  {
    JoinSplit(s, sep);
    var parts := Split(s, sep);
    assert parts[1..] == [parts[1]];
  }

  /** The index of the first occurrence of `c` in `s`, if any (Python's `s.find(c)`, with `None` for -1). */
  function FirstIndex(s: string, c: char): (r: Option<nat>)
    ensures r.None? <==> c !in s
    ensures r.Some? ==> r.value < |s| && s[r.value] == c && c !in s[..r.value]
    decreases |s|
  {
    if |s| == 0 then None
    else if s[0] == c then Some(0)
    else match FirstIndex(s[1..], c)
      case None => None
      case Some(i) => Some(i + 1)
  }

  /** Python's `s.endswith(suffix)`. */
  predicate EndsWith(s: string, suffix: string) {
    |suffix| <= |s| && s[|s| - |suffix|..] == suffix
  }

  /** What `"{0}".format(x)` writes for a string that may be `None`. */
  function Display(x: Option<string>): string {
    match x
    case None => "None"
    case Some(s) => s
  }
}
