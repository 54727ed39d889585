/** Optional values, used wherever a Python value or a database column may be None / NULL. */
module Wrappers {
  datatype Option<+T> = None | Some(value: T)

  /** Python's `x or default` on an optional string: None and "" are both falsy. */
  function OrElse(x: Option<string>, default: string): (r: string)
    ensures r == default || (x.Some? && r == x.value)
    ensures x.Some? && x.value != "" ==> r == x.value
  {
    if x.Some? && x.value != "" then x.value else default
  }

  /** Python truthiness of an optional string. */
  predicate Truthy(x: Option<string>)
  {
    x.Some? && x.value != ""
  }
}

/** The string operations the board's code uses, on `seq<char>`. */
module Text {
  /** `str.lower()` on ASCII letters; every other character is left as it is. */
  function LowerChar(c: char): char
  {
    if 'A' <= c <= 'Z' then (c as int + 32) as char else c
  }

  function UpperChar(c: char): char
  {
    if 'a' <= c <= 'z' then (c as int - 32) as char else c
  }

  predicate IsLetter(c: char)
  {
    'A' <= c <= 'Z' || 'a' <= c <= 'z'
  }

  function Lower(s: string): (r: string)
    ensures |r| == |s|
    ensures forall i :: 0 <= i < |s| ==> r[i] == LowerChar(s[i])
  {
    seq(|s|, i requires 0 <= i < |s| => LowerChar(s[i]))
  }

  lemma {:induction false} LowerAppend(a: string, b: string)
    ensures Lower(a + b) == Lower(a) + Lower(b)
  {
    var l, r := Lower(a + b), Lower(a) + Lower(b);
    assert |l| == |r|;
    forall i | 0 <= i < |l| ensures l[i] == r[i] {
      if i < |a| { assert (a + b)[i] == a[i]; } else { assert (a + b)[i] == b[i - |a|]; }
    }
  }

  /** `str.title()` restricted to ASCII: a letter is upper-cased when the character before it is not
      a letter, lower-cased otherwise. */
  function Title(s: string): (r: string)
    ensures |r| == |s|
  {
    TitleFrom(s, false)
  }

  function TitleFrom(s: string, afterLetter: bool): (r: string)
    ensures |r| == |s|
    ensures forall i :: 0 <= i < |s| ==> (IsLetter(s[i]) <==> IsLetter(r[i]))
  {
    if s == [] then []
    else
      var c := if IsLetter(s[0]) then (if afterLetter then LowerChar(s[0]) else UpperChar(s[0])) else s[0];
      [c] + TitleFrom(s[1..], IsLetter(s[0]))
  }

  predicate StartsWith(s: string, prefix: string)
  {
    |prefix| <= |s| && s[..|prefix|] == prefix
  }

  /** Python's `needle in s` on strings. */
  predicate Contains(s: string, needle: string)
  {
    exists i :: 0 <= i <= |s| - |needle| && OccursAt(s, needle, i)
  }

  predicate OccursAt(s: string, needle: string, i: int)
  {
    0 <= i <= |s| - |needle| && s[i..i + |needle|] == needle
  }

  /** Position `i` of `s` is position `i - k` of its suffix from `k`, and so is what follows it. */
  lemma SuffixShift(s: string, k: nat, i: nat)
    requires k <= i < |s|
    ensures s[k..][i - k] == s[i] && s[k..][i - k + 1..] == s[i + 1..]
  {
  }

  /** What follows position `i` in `s` is what follows position `i - k` in its suffix from `k`. */
  lemma SuffixSlice(s: string, k: nat, i: nat, len: nat)
    requires k <= i && i + 1 + len <= |s|
    ensures s[k..][i - k + 1..i - k + 1 + len] == s[i + 1..i + 1 + len]
  {
  }

  /** What a suffix contains, the whole string contains. */
  lemma ContainsInSuffix(s: string, k: nat, needle: string)
    requires k <= |s| && Contains(s[k..], needle)
    ensures Contains(s, needle)
  {
    var i :| 0 <= i <= |s[k..]| - |needle| && OccursAt(s[k..], needle, i);
    assert s[k + i..k + i + |needle|] == s[k..][i..i + |needle|];
    assert OccursAt(s, needle, k + i);
  }

  /** The same test as `Contains`, decided by a scan from the left. */
  function ContainsFrom(s: string, needle: string): (b: bool)
    ensures b <==> Contains(s, needle)
    decreases |s|
  {
    if |s| < |needle| then false
    else if s[..|needle|] == needle then assert OccursAt(s, needle, 0); true
    else
      var b := ContainsFrom(s[1..], needle);
      assert Contains(s[1..], needle) ==> Contains(s, needle) by {
        if Contains(s[1..], needle) {
          var i :| 0 <= i <= |s[1..]| - |needle| && OccursAt(s[1..], needle, i);
          assert s[i + 1..i + 1 + |needle|] == s[1..][i..i + |needle|];
          assert OccursAt(s, needle, i + 1);
        }
      }
      assert Contains(s, needle) ==> Contains(s[1..], needle) by {
        if Contains(s, needle) {
          var i :| 0 <= i <= |s| - |needle| && OccursAt(s, needle, i);
          assert i != 0;
          assert s[1..][i - 1..i - 1 + |needle|] == s[i..i + |needle|];
          assert OccursAt(s[1..], needle, i - 1);
        }
      }
      b
  }

  /** Python's `s[:n]`. */
  function Take(s: string, n: nat): (r: string)
    ensures |r| == if |s| <= n then |s| else n
    ensures r == s[..|r|]
  {
    if |s| <= n then s else s[..n]
  }

  /** Python's `sep.join(parts)`. */
  function Join(parts: seq<string>, sep: string): (r: string)
    ensures parts == [] ==> r == ""
    ensures |parts| == 1 ==> r == parts[0]
  {
    if parts == [] then ""
    else if |parts| == 1 then parts[0]
    else parts[0] + sep + Join(parts[1..], sep)
  }

  /** Python's `s.split(sep)` for a one-character separator. */
  function Split(s: string, sep: char): (parts: seq<string>)
    ensures |parts| >= 1
    ensures forall i :: 0 <= i < |parts| ==> sep !in parts[i]
    decreases |s|
  {
    if s == [] then [""]
    else
      var rest := Split(s[1..], sep);
      if s[0] == sep then [""] + rest
      else [[s[0]] + rest[0]] + rest[1..]
  }

  /** Splitting and joining on the separator gives the string back. */
  lemma {:induction false} SplitJoin(s: string, sep: char)
    ensures Join(Split(s, sep), [sep]) == s
    decreases |s|
  {
    if s != [] {
      var rest := Split(s[1..], sep);
      SplitJoin(s[1..], sep);
      if s[0] == sep {
        assert Split(s, sep) == [""] + rest;
        assert s == [s[0]] + s[1..];
      } else {
        JoinHead(rest, [sep], s[0]);
        assert Split(s, sep) == [[s[0]] + rest[0]] + rest[1..];
        assert s == [s[0]] + s[1..];
      }
    }
  }

  lemma JoinHead(parts: seq<string>, sep: string, c: char)
    requires |parts| >= 1
    ensures Join([[c] + parts[0]] + parts[1..], sep) == [c] + Join(parts, sep)
  {
    var p := [[c] + parts[0]] + parts[1..];
    if |parts| > 1 {
      assert p[1..] == parts[1..];
    }
  }

  predicate IsAscii(s: string)
  {
    forall i :: 0 <= i < |s| ==> s[i] as int < 128
  }

  /** Text order under SQLite's default (BINARY) collation: code point by code point from the left,
      a proper prefix first. */
  predicate LexLess(a: string, b: string)
  {
    if b == [] then false
    else if a == [] then true
    else if a[0] != b[0] then a[0] < b[0]
    else LexLess(a[1..], b[1..])
  }

  /** Two texts are equal or one precedes the other ... */
  lemma {:induction false} LexTrichotomy(a: string, b: string)
    ensures LexLess(a, b) || a == b || LexLess(b, a)
  {
    if a != [] && b != [] && a[0] == b[0] {
      LexTrichotomy(a[1..], b[1..]);
      if a[1..] == b[1..] {
        assert a == [a[0]] + a[1..] && b == [b[0]] + b[1..];
      }
    }
  }

  /** ... never both ... */
  lemma {:induction false} LexAsymmetric(a: string, b: string)
    ensures !(LexLess(a, b) && LexLess(b, a))
  {
    if a != [] && b != [] && a[0] == b[0] {
      LexAsymmetric(a[1..], b[1..]);
    }
  }

  /** ... and the order is transitive. */
  lemma {:induction false} LexTransitive(a: string, b: string, c: string)
    requires LexLess(a, b) && LexLess(b, c)
    ensures LexLess(a, c)
  {
    if a != [] && a[0] == b[0] && b[0] == c[0] {
      LexTransitive(a[1..], b[1..], c[1..]);
    }
  }

  lemma AsciiSuffix(s: string, k: nat)
    requires IsAscii(s) && k <= |s|
    ensures IsAscii(s[k..])
  {
    forall i | 0 <= i < |s[k..]| ensures s[k..][i] as int < 128 {
      assert s[k..][i] == s[k + i];
    }
  }

  /** Splitting a piece without the separator, the separator, and the rest: the piece comes first. */
  lemma {:induction false} SplitAfterPiece(a: string, sep: char, b: string)
    requires sep !in a
    ensures Split(a + [sep] + b, sep) == [a] + Split(b, sep)
    decreases |a|
  {
    if a == [] {
      assert a + [sep] + b == [sep] + b;
    } else {
      SplitAfterPiece(a[1..], sep, b);
      assert (a + [sep] + b)[1..] == a[1..] + [sep] + b;
      assert [a[0]] + a[1..] == a;
    }
  }

  /** A piece without the separator, followed by nothing or by the separator, is the first part. */
  lemma SplitFirstPiece(a: string, sep: char, b: string)
    requires sep !in a && (b == [] || b[0] == sep)
    ensures Split(a + b, sep)[0] == a
  {
    if b == [] {
      PieceAlone(a, sep);
      assert a + b == a;
    } else {
      SplitAfterPiece(a, sep, b[1..]);
      assert a + b == a + [sep] + b[1..];
    }
  }

  lemma {:induction false} PieceAlone(a: string, sep: char)
    requires sep !in a
    ensures Split(a, sep) == [a]
    decreases |a|
  {
    if a != [] {
      PieceAlone(a[1..], sep);
      assert [a[0]] + a[1..] == a;
    }
  }
}
