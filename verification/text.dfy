/**
 * The string operations the handlers rely on, written out as Python defines
 * them: `str.split(sep)`, `str.replace(' ', '')`, `p in s` on strings, and the
 * decimal conversions `int(s)` and `str(n)` restricted to plain digit strings.
 */
module Text {

  /** Python's `s.split(sep)` with an explicit separator: the pieces between
      separators, so never an empty list, and no piece holds the separator. */
  function Split(s: string, sep: char): (pieces: seq<string>)
    ensures |pieces| >= 1
    ensures forall i :: 0 <= i < |pieces| ==> sep !in pieces[i]
    decreases |s|
  {
    if s == [] then [""]
    else
      var rest := Split(s[1..], sep);
      if s[0] == sep then [""] + rest
      else [[s[0]] + rest[0]] + rest[1..]
  }

  /** `sep.join(pieces)`, the inverse of Split. */
  function Join(pieces: seq<string>, sep: char): string
    requires |pieces| >= 1
  {
    if |pieces| == 1 then pieces[0] else pieces[0] + [sep] + Join(pieces[1..], sep)
  }

  /** Splitting and joining again gives back the original string. */
  lemma {:induction false} JoinSplit(s: string, sep: char)
    ensures Join(Split(s, sep), sep) == s
    decreases |s|
  {
    if s != [] {
      JoinSplit(s[1..], sep);
      var rest := Split(s[1..], sep);
      if s[0] == sep {
        assert ([""] + rest)[1..] == rest;
        assert s == [sep] + s[1..];
      } else if |rest| == 1 {
        assert s == [s[0]] + s[1..];
      } else {
        var pieces := [[s[0]] + rest[0]] + rest[1..];
        assert pieces[1..] == rest[1..];
        assert s == [s[0]] + s[1..];
      }
    }
  }

  /** A string without the separator is a single piece. */
  lemma {:induction false} SplitPiece(a: string, sep: char)
    requires sep !in a
    ensures Split(a, sep) == [a]
    decreases |a|
  {
    if a != [] {
      SplitPiece(a[1..], sep);
      assert a == [a[0]] + a[1..];
    }
  }

  /** A separator-free prefix followed by the separator splits off as one piece. */
  lemma {:induction false} SplitCons(a: string, r: string, sep: char)
    requires sep !in a
    ensures Split(a + [sep] + r, sep) == [a] + Split(r, sep)
    decreases |a|
  {
    var s := a + [sep] + r;
    if a == [] {
      assert s[1..] == r;
    } else {
      SplitCons(a[1..], r, sep);
      assert s[1..] == a[1..] + [sep] + r;
      assert [a[0]] + a[1..] == a;
    }
  }

  /** Joining separator-free pieces and splitting again gives back the pieces. */
  lemma {:induction false} SplitJoin(pieces: seq<string>, sep: char)
    requires |pieces| >= 1
    requires forall i :: 0 <= i < |pieces| ==> sep !in pieces[i]
    ensures Split(Join(pieces, sep), sep) == pieces
    decreases |pieces|
  {
    if |pieces| == 1 {
      SplitPiece(pieces[0], sep);
    } else {
      SplitJoin(pieces[1..], sep);
      SplitCons(pieces[0], Join(pieces[1..], sep), sep);
      assert [pieces[0]] + pieces[1..] == pieces;
    }
  }

  /** Python's `s.replace(' ', '')`: every blank removed, everything else kept in order. */
  function RemoveSpaces(s: string): (r: string)
    ensures ' ' !in r
    ensures forall c :: c in r <==> c in s && c != ' '
    ensures |r| <= |s|
  {
    if s == [] then []
    else if s[0] == ' ' then RemoveSpaces(s[1..])
    else [s[0]] + RemoveSpaces(s[1..])
  }

  /** A string made only of blanks has nothing left once the blanks are removed. */
  lemma {:induction false} RemoveSpacesOfBlanks(s: string)
    requires forall i :: 0 <= i < |s| ==> s[i] == ' '
    ensures RemoveSpaces(s) == ""
  {
    if s != [] {
      RemoveSpacesOfBlanks(s[1..]);
    }
  }

  /** Removing blanks works piecewise on a concatenation. */
  lemma {:induction false} RemoveSpacesAppend(a: string, b: string)
    ensures RemoveSpaces(a + b) == RemoveSpaces(a) + RemoveSpaces(b)
  {
    if a == [] {
      assert a + b == b;
    } else {
      var ab := a + b;
      assert ab[0] == a[0];
      assert ab[1..] == a[1..] + b;
      RemoveSpacesAppend(a[1..], b);
      assert RemoveSpaces(ab) == (if a[0] == ' ' then [] else [a[0]]) + RemoveSpaces(ab[1..]);
      assert RemoveSpaces(a) == (if a[0] == ' ' then [] else [a[0]]) + RemoveSpaces(a[1..]);
    }
  }

  /** A string without blanks is left as it is. */
  lemma {:induction false} RemoveSpacesKeeps(s: string)
    requires ' ' !in s
    ensures RemoveSpaces(s) == s
  {
    if s != [] {
      RemoveSpacesKeeps(s[1..]);
      assert s == [s[0]] + s[1..];
    }
  }

  /** Python's `p in s` for strings: `p` occurs as a contiguous block of `s`. */
  predicate IsSubstring(p: string, s: string)
  {
    exists i :: 0 <= i <= |s| - |p| && OccursAt(p, s, i)
  }

  /** `p` occurs in `s` starting at index `i`. */
  predicate OccursAt(p: string, s: string, i: int)
  {
    0 <= i <= |s| - |p| && s[i..i + |p|] == p
  }

  /** Occurring inside something that occurs inside `s` is occurring inside `s`. */
  lemma SubstringTrans(a: string, b: string, s: string)
    requires IsSubstring(a, b) && IsSubstring(b, s)
    ensures IsSubstring(a, s)
  {
    var i :| 0 <= i <= |b| - |a| && OccursAt(a, b, i);
    var j :| 0 <= j <= |s| - |b| && OccursAt(b, s, j);
    assert forall t :: 0 <= t < |a| ==> s[j + i + t] == b[i + t] == a[t];
    assert s[j + i..j + i + |a|] == a;
    assert OccursAt(a, s, j + i);
  }

  /** Every piece of a joined list occurs in the joined string. */
  lemma {:induction false} PieceInJoin(pieces: seq<string>, sep: char, k: nat)
    requires k < |pieces|
    ensures IsSubstring(pieces[k], Join(pieces, sep))
    decreases |pieces|
  {
    var s := Join(pieces, sep);
    if |pieces| == 1 || k == 0 {
      assert OccursAt(pieces[0], s, 0);
    } else {
      PieceInJoin(pieces[1..], sep, k - 1);
      var tail := Join(pieces[1..], sep);
      var i :| 0 <= i <= |tail| - |pieces[k]| && OccursAt(pieces[k], tail, i);
      var off := |pieces[0]| + 1;
      assert s == (pieces[0] + [sep]) + tail;
      assert s[off + i..off + i + |pieces[k]|] == tail[i..i + |pieces[k]|];
      assert OccursAt(pieces[k], s, off + i);
    }
  }

  /** Every piece of a split occurs in the string that was split. */
  lemma PieceInSplit(s: string, sep: char, k: nat)
    requires k < |Split(s, sep)|
    ensures IsSubstring(Split(s, sep)[k], s)
  {
    JoinSplit(s, sep);
    PieceInJoin(Split(s, sep), sep, k);
  }

  /** A separator-free prefix of `t` is a prefix of the first piece of its split. */
  lemma {:induction false} PrefixInFirstPiece(p: string, t: string, sep: char)
    requires sep !in p && |p| <= |t| && t[..|p|] == p
    ensures |p| <= |Split(t, sep)[0]| && Split(t, sep)[0][..|p|] == p
    decreases |p|
  {
    if p != [] {
      assert t[0] == p[0];
      assert t[1..][..|p| - 1] == p[1..];
      PrefixInFirstPiece(p[1..], t[1..], sep);
      var first := Split(t, sep)[0];
      assert first == [t[0]] + Split(t[1..], sep)[0];
      assert first[..|p|] == [t[0]] + Split(t[1..], sep)[0][..|p| - 1];
    }
  }

  /** A separator-free substring of `s` lies inside one piece of its split;
      `k` is that piece. */
  lemma {:induction false} SubstringInPiece(p: string, s: string, sep: char) returns (k: nat)
    requires sep !in p && IsSubstring(p, s)
    ensures k < |Split(s, sep)| && IsSubstring(p, Split(s, sep)[k])
    decreases |s|
  {
    var i :| 0 <= i <= |s| - |p| && OccursAt(p, s, i);
    if i == 0 {
      assert s[..|p|] == p;
      PrefixInFirstPiece(p, s, sep);
      k := 0;
      assert OccursAt(p, Split(s, sep)[0], 0);
    } else {
      var tail := s[1..];
      assert tail[i - 1..i - 1 + |p|] == s[i..i + |p|];
      assert OccursAt(p, tail, i - 1);
      var j := SubstringInPiece(p, tail, sep);
      var rest := Split(tail, sep);
      if s[0] == sep {
        k := j + 1;
        assert Split(s, sep)[k] == rest[j];
      } else if j == 0 {
        k := 0;
        var first := [s[0]] + rest[0];
        assert Split(s, sep)[0] == first;
        var m :| 0 <= m <= |rest[0]| - |p| && OccursAt(p, rest[0], m);
        assert first[m + 1..m + 1 + |p|] == rest[0][m..m + |p|];
        assert OccursAt(p, first, m + 1);
      } else {
        k := j;
        assert Split(s, sep)[k] == rest[j];
      }
    }
  }

  predicate IsDigit(c: char)
  {
    '0' <= c <= '9'
  }

  /** What Python's `int(s)` accepts in this model: one or more ASCII digits. */
  predicate IsDecimal(s: string)
  {
    |s| >= 1 && forall i :: 0 <= i < |s| ==> IsDigit(s[i])
  }

  function DigitValue(c: char): nat
    requires IsDigit(c)
  {
    (c as int - '0' as int) as nat
  }

  function DigitChar(d: nat): (c: char)
    requires d < 10
    ensures IsDigit(c) && DigitValue(c) == d
  {
    ('0' as int + d) as char
  }

  /** The value of a digit string, most significant digit first (`int(s)`).
      A string that does not start with '0' has a value of at least one. */
  function ParseNat(s: string): (n: nat)
    requires forall i :: 0 <= i < |s| ==> IsDigit(s[i])
    ensures |s| >= 1 && s[0] != '0' ==> n >= 1
  {
    if s == [] then 0
    else
      var init := s[..|s| - 1];
      assert |init| >= 1 ==> init[0] == s[0];
      ParseNat(init) * 10 + DigitValue(s[|s| - 1])
  }

  /** The canonical decimal spelling of `n` (`str(n)`): digits only, no leading zero. */
  function NatToString(n: nat): (s: string)
    ensures IsDecimal(s)
    ensures s[0] == '0' ==> s == "0" && n == 0
  {
    if n < 10 then [DigitChar(n)] else NatToString(n / 10) + [DigitChar(n % 10)]
  }

  /** Reading back what NatToString writes gives the number again. */
  lemma {:induction false} ParseNatToString(n: nat)
    ensures ParseNat(NatToString(n)) == n
  {
    var s := NatToString(n);
    if n < 10 {
      assert s[..0] == [];
    } else {
      ParseNatToString(n / 10);
      assert s[..|s| - 1] == NatToString(n / 10);
    }
  }

  /** A canonical digit string (no leading zero) is exactly what NatToString
      writes for its value: the two conversions are inverse on canonical strings. */
  lemma {:induction false} NatToStringParse(s: string)
    requires IsDecimal(s)
    requires s[0] == '0' ==> |s| == 1
    ensures NatToString(ParseNat(s)) == s
    decreases |s|
  {
    var init := s[..|s| - 1];
    if |s| == 1 {
      assert init == [];
    } else {
      assert init[0] == s[0];
      NatToStringParse(init);
      assert ParseNat(s) / 10 == ParseNat(init);
      assert s == init + [s[|s| - 1]];
    }
  }
}
