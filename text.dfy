/**
 * String helpers shared by the modules: the Rust `str` operations the core
 * applies to postcodes and coordinate text (`replace` with a one-character
 * pattern, `split(';')`, `join(";")`) and `usize::to_string`.
 */
module Text {

  /** `s.replace(c, "")`: `s` with every occurrence of `c` deleted. */
  function RemoveChar(s: string, c: char): (r: string)
    ensures c !in r
    ensures |r| <= |s|
    ensures c in s ==> |r| < |s|
  {
    if |s| == 0 then ""
    else if s[0] == c then RemoveChar(s[1..], c)
      else [s[0]] + RemoveChar(s[1..], c)
  }

  /** Removal keeps every other character, each as often as before, and drops every `c`. */
  lemma {:induction false} RemoveCharContents(s: string, c: char)
    ensures multiset(RemoveChar(s, c)) == multiset(s)[c := 0]
  {
    if |s| > 0 {
      RemoveCharContents(s[1..], c);
      assert s == [s[0]] + s[1..];
    }
  }

  /** Removal works character by character, left to right: it distributes over concatenation. */
  lemma {:induction false} RemoveCharConcat(a: string, b: string, c: char)
    ensures RemoveChar(a + b, c) == RemoveChar(a, c) + RemoveChar(b, c)
  {
    if |a| > 0 {
      assert (a + b)[1..] == a[1..] + b;
      RemoveCharConcat(a[1..], b, c);
    } else {
      assert a + b == b;
    }
  }

  /** Removing a character that does not occur changes nothing. */
  lemma {:induction false} RemoveCharAbsent(s: string, c: char)
    ensures c !in s ==> RemoveChar(s, c) == s
  {
    if |s| > 0 && c !in s {
      assert s[0] != c;
      RemoveCharAbsent(s[1..], c);
      assert s == [s[0]] + s[1..];
    }
  }

  /** `s.replace(a, b)` for one-character `a` and `b`: every `a` becomes `b`, all else stays. */
  function ReplaceChar(s: string, a: char, b: char): (r: string)
    ensures |r| == |s|
    ensures forall i :: 0 <= i < |s| ==> r[i] == (if s[i] == a then b else s[i])
  {
    if |s| == 0 then ""
    else [if s[0] == a then b else s[0]] + ReplaceChar(s[1..], a, b)
  }

  /** Replacing a character that does not occur changes nothing. */
  lemma ReplaceCharAbsent(s: string, a: char, b: char)
    ensures a !in s ==> ReplaceChar(s, a, b) == s
  {
    if a !in s {
      assert forall i :: 0 <= i < |s| ==> ReplaceChar(s, a, b)[i] == s[i];
    }
  }

  /** Replacing the one occurrence of `a` between two `a`-free parts replaces just that character. */
  lemma ReplaceCharAround(x: string, y: string, a: char, b: char)
    requires a !in x && a !in y
    ensures ReplaceChar(x + [a] + y, a, b) == x + [b] + y
  {
    var s := x + [a] + y;
    var r := ReplaceChar(s, a, b);
    var t := x + [b] + y;
    assert |r| == |t|;
    forall i | 0 <= i < |r|
      ensures r[i] == t[i]
    {
      if i < |x| {
        assert s[i] == x[i] && t[i] == x[i] && x[i] in x;
      } else if i == |x| {
        assert s[i] == a && t[i] == b;
      } else {
        assert s[i] == y[i - |x| - 1] && t[i] == y[i - |x| - 1] && y[i - |x| - 1] in y;
      }
    }
  }

  /** `s.split(sep)`: the maximal pieces between separators; never empty (`"".split` gives `[""]`). */
  function Split(s: string, sep: char): (r: seq<string>)
    ensures |r| >= 1
  {
    if |s| == 0 then [""]
    else if s[0] == sep then [""] + Split(s[1..], sep)
    else
      var rest := Split(s[1..], sep);
      [[s[0]] + rest[0]] + rest[1..]
  }

  /** `parts.join(sep)`. */
  function Join(parts: seq<string>, sep: char): string
  {
    if |parts| == 0 then ""
    else if |parts| == 1 then parts[0]
    else parts[0] + [sep] + Join(parts[1..], sep)
  }

  lemma {:induction false} SplitNoSeparator(x: string, sep: char)
    requires sep !in x
    ensures Split(x, sep) == [x]
  {
    if |x| > 0 {
      SplitNoSeparator(x[1..], sep);
      assert x == [x[0]] + x[1..];
    }
  }

  lemma {:induction false} SplitFirstPiece(x: string, y: string, sep: char)
    requires sep !in x
    ensures Split(x + [sep] + y, sep) == [x] + Split(y, sep)
  {
    var s := x + [sep] + y;
    if |x| == 0 {
      assert s[1..] == y;
    } else {
      assert s[1..] == x[1..] + [sep] + y;
      SplitFirstPiece(x[1..], y, sep);
      assert x == [x[0]] + x[1..];
    }
  }

  /** Splitting a join gives back the parts, provided no part contains the separator. */
  lemma {:induction false} SplitJoin(parts: seq<string>, sep: char)
    requires |parts| >= 1
    requires forall i :: 0 <= i < |parts| ==> sep !in parts[i]
    ensures Split(Join(parts, sep), sep) == parts
  {
    if |parts| == 1 {
      SplitNoSeparator(parts[0], sep);
    } else {
      SplitJoin(parts[1..], sep);
      SplitFirstPiece(parts[0], Join(parts[1..], sep), sep);
    }
  }

  /** The two-part case used for `"{lat};{lon}"` strings. */
  lemma SplitPair(a: string, b: string, sep: char)
    ensures sep !in a && sep !in b ==> Split(a + [sep] + b, sep) == [a, b]
  {
    if sep !in a && sep !in b {
      assert Join([a, b], sep) == a + [sep] + b;
      SplitJoin([a, b], sep);
    }
  }

  predicate IsDigit(c: char) { '0' <= c <= '9' }

  /** `n.to_string()` for an unsigned integer: its decimal digits, no leading zero. */
  function NatToString(n: nat): (r: string)
    ensures |r| >= 1
    ensures forall i :: 0 <= i < |r| ==> IsDigit(r[i])
    ensures r[0] == '0' ==> n == 0
  {
    if n < 10 then [('0' as int + n) as char]
    else NatToString(n / 10) + [('0' as int + n % 10) as char]
  }

  /** The value of a string of decimal digits. */
  function ParseNat(s: string): nat
    requires forall i :: 0 <= i < |s| ==> IsDigit(s[i])
  {
    if |s| == 0 then 0
    else
      assert IsDigit(s[|s| - 1]);
      ParseNat(s[..|s| - 1]) * 10 + (s[|s| - 1] as int - '0' as int)
  }

  /** Reading the decimal text back gives the number: the text names the number. */
  lemma {:induction false} ParseNatToString(n: nat)
    ensures ParseNat(NatToString(n)) == n
  {
    if n >= 10 {
      ParseNatToString(n / 10);
      var s := NatToString(n);
      assert s[..|s| - 1] == NatToString(n / 10);
    }
  }

  /** Distinct numbers have distinct decimal texts. */
  lemma NatToStringInjective(m: nat, n: nat)
    requires m != n
    ensures NatToString(m) != NatToString(n)
  {
    ParseNatToString(m);
    ParseNatToString(n);
  }
}
