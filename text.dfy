/**
 * The JavaScript string operations the broker relies on: `split(' ')`,
 * `trim()`, `join` and the decimal rendering of numbers.
 */
module Text {

  /** The characters `String.prototype.trim` removes: white space and line terminators. */
  predicate IsWhitespace(c: char)
  {
    || c == ' ' || c == '\t' || c == '\n' || c == '\r'
    || c == '\U{000B}' || c == '\U{000C}' || c == '\U{00A0}' || c == '\U{FEFF}'
    || c == '\U{1680}' || ('\U{2000}' <= c <= '\U{200A}')
    || c == '\U{2028}' || c == '\U{2029}' || c == '\U{202F}' || c == '\U{205F}' || c == '\U{3000}'
  }

  /** Drops leading white space. */
  function TrimStart(s: string): (r: string)
    ensures |r| <= |s| && r == s[|s| - |r|..]
  {
    if |s| > 0 && IsWhitespace(s[0]) then TrimStart(s[1..]) else s
  }

  /** TrimStart drops white space only, and all of it up to the first other character. */
  lemma {:induction false} TrimStartSpec(s: string)
    ensures TrimStart(s) == [] || !IsWhitespace(TrimStart(s)[0])
    ensures forall i :: 0 <= i < |s| - |TrimStart(s)| ==> IsWhitespace(s[i])
    decreases |s|
  {
    if |s| > 0 && IsWhitespace(s[0]) {
      TrimStartSpec(s[1..]);
      forall i | 1 <= i < |s| - |TrimStart(s)|
        ensures IsWhitespace(s[i])
      {
        assert s[i] == s[1..][i - 1];
      }
    }
  }

  /** Drops trailing white space. */
  function TrimEnd(s: string): (r: string)
    ensures |r| <= |s| && r == s[..|r|]
  {
    if |s| > 0 && IsWhitespace(s[|s| - 1]) then TrimEnd(s[..|s| - 1]) else s
  }

  /** TrimEnd drops white space only, and all of it after the last other character. */
  lemma {:induction false} TrimEndSpec(s: string)
    ensures TrimEnd(s) == [] || !IsWhitespace(TrimEnd(s)[|TrimEnd(s)| - 1])
    ensures forall i :: |TrimEnd(s)| <= i < |s| ==> IsWhitespace(s[i])
    decreases |s|
  {
    if |s| > 0 && IsWhitespace(s[|s| - 1]) {
      TrimEndSpec(s[..|s| - 1]);
      forall i | |TrimEnd(s)| <= i < |s| - 1
        ensures IsWhitespace(s[i])
      {
        assert s[i] == s[..|s| - 1][i];
      }
    }
  }

  /** `s.trim()`. */
  function Trim(s: string): string
  {
    TrimEnd(TrimStart(s))
  }

  /** Where `trim` cuts: the kept slice `s[i..j]`, with only white space before and after it. */
  lemma TrimCut(s: string) returns (i: nat, j: nat)
    ensures i <= j <= |s| && Trim(s) == s[i..j]
    ensures forall k :: 0 <= k < i ==> IsWhitespace(s[k])
    ensures forall k :: j <= k < |s| ==> IsWhitespace(s[k])
  {
    var t := TrimStart(s);
    i := |s| - |t|;
    j := i + |TrimEnd(t)|;
    TrimStartSpec(s);
    TrimEndShifted(s, t);
    assert s[i..][..j - i] == s[i..j];
  }

  /** What TrimEnd drops from a tail of `s` is white space of `s` itself. */
  lemma TrimEndShifted(s: string, t: string)
    requires |t| <= |s| && t == s[|s| - |t|..]
    ensures forall k :: |s| - |t| + |TrimEnd(t)| <= k < |s| ==> IsWhitespace(s[k])
  {
    TrimEndSpec(t);
    AllShifted(s, |s| - |t|, |TrimEnd(t)|, IsWhitespace);
  }

  /** A property of every character of the tail `s[i..]` from position lo on holds of `s` from i + lo on. */
  lemma AllShifted(s: string, i: nat, lo: nat, p: char -> bool)
    requires i + lo <= |s|
    requires forall k :: lo <= k < |s| - i ==> p(s[i..][k])
    ensures forall k :: i + lo <= k < |s| ==> p(s[k])
  {
    forall k | i + lo <= k < |s|
      ensures p(s[k])
    {
      assert s[k] == s[i..][k - i];
    }
  }

  /** Trim cuts only white space from either end and leaves no white space at either end. */
  lemma TrimSpec(s: string)
    ensures exists i, j ::
              && 0 <= i <= j <= |s| && Trim(s) == s[i..j]
              && (forall k :: 0 <= k < i ==> IsWhitespace(s[k]))
              && (forall k :: j <= k < |s| ==> IsWhitespace(s[k]))
    ensures Trim(s) == [] || (!IsWhitespace(Trim(s)[0]) && !IsWhitespace(Trim(s)[|Trim(s)| - 1]))
  {
    var i, j := TrimCut(s);
    TrimEnds(s);
  }

  /** A trimmed string neither starts nor ends with white space. */
  lemma TrimEnds(s: string)
    ensures Trim(s) == [] || (!IsWhitespace(Trim(s)[0]) && !IsWhitespace(Trim(s)[|Trim(s)| - 1]))
  {
    var t := TrimStart(s);
    var r := Trim(s);
    TrimStartSpec(s);
    TrimEndSpec(t);
    if r != [] {
      assert r[0] == t[0];
    }
  }

  /** A string with no white space at either end is its own trim. */
  lemma TrimBare(s: string)
    requires s == [] || (!IsWhitespace(s[0]) && !IsWhitespace(s[|s| - 1]))
    ensures Trim(s) == s
  {
    assert TrimStart(s) == s;
  }

  /** Trimming twice is trimming once. */
  lemma TrimIdempotent(s: string)
    ensures Trim(Trim(s)) == Trim(s)
  {
    var r := Trim(s);
    TrimSpec(s);
    assert TrimStart(r) == r;
    assert TrimEnd(r) == r;
  }

  /** `s.split(sep)` for a one-character separator: the pieces between separators, empty ones included. */
  function Split(s: string, sep: char): (r: seq<string>)
    ensures |r| >= 1
    decreases |s|
  {
    if |s| == 0 then [""]
    else
      var rest := Split(s[1..], sep);
      if s[0] == sep then [""] + rest
      else [[s[0]] + rest[0]] + rest[1..]
  }

  /** `pieces.join(sep)`. */
  function Join(pieces: seq<string>, sep: char): string
    requires |pieces| >= 1
    decreases |pieces|
  {
    if |pieces| == 1 then pieces[0] else pieces[0] + [sep] + Join(pieces[1..], sep)
  }

  /** How many times `c` occurs in `s`. */
  function Occurrences(s: string, c: char): nat
  {
    if s == [] then 0 else (if s[0] == c then 1 else 0) + Occurrences(s[1..], c)
  }

  /** A character occurs a positive number of times exactly when it is in the string. */
  lemma {:induction false} OccursIffIn(s: string, c: char)
    ensures Occurrences(s, c) > 0 <==> c in s
  {
    if s != [] {
      OccursIffIn(s[1..], c);
      assert s == [s[0]] + s[1..];
    }
  }

  /** Joining the pieces of a split gives back the original string. */
  lemma {:induction false} JoinSplit(s: string, sep: char)
    ensures Join(Split(s, sep), sep) == s
    decreases |s|
  {
    if |s| > 0 {
      JoinSplit(s[1..], sep);
      var rest := Split(s[1..], sep);
      if s[0] != sep {
        var r := Split(s, sep);
        if |rest| == 1 {
          assert r == [[s[0]] + rest[0]];
        } else {
          assert r[1..] == rest[1..];
          assert Join(rest, sep) == rest[0] + [sep] + Join(rest[1..], sep);
        }
      } else {
        assert Split(s, sep)[1..] == rest;
        assert s == [s[0]] + s[1..];
      }
    }
  }

  /** No piece of a split contains the separator, and there is one piece more than separators. */
  lemma {:induction false} SplitPieces(s: string, sep: char)
    ensures forall k :: 0 <= k < |Split(s, sep)| ==> sep !in Split(s, sep)[k]
    ensures |Split(s, sep)| == Occurrences(s, sep) + 1
    decreases |s|
  {
    if |s| > 0 {
      SplitPieces(s[1..], sep);
      var rest := Split(s[1..], sep);
      var r := Split(s, sep);
      if s[0] != sep {
        assert r[0] == [s[0]] + rest[0];
        forall k | 1 <= k < |r| ensures sep !in r[k] {
          assert r[k] == rest[k];
        }
      } else {
        forall k | 1 <= k < |r| ensures sep !in r[k] {
          assert r[k] == rest[k - 1];
        }
      }
    }
  }

  /** The first piece of a split is everything before the first separator. */
  lemma {:induction false} SplitHead(w: string, rest: string, sep: char)
    requires sep !in w
    ensures Split(w + [sep] + rest, sep)[0] == w
    ensures Split(w, sep)[0] == w
    decreases |w|
  {
    if |w| > 0 {
      SplitHead(w[1..], rest, sep);
      assert (w + [sep] + rest)[1..] == w[1..] + [sep] + rest;
      assert [w[0]] + w[1..] == w;
    }
  }

  /** A string with a separator after a separator-free head determines the head and the rest. */
  lemma {:induction false} FirstSeparator(a1: string, b1: string, a2: string, b2: string, c: char)
    requires c !in a1 && c !in a2
    requires a1 + [c] + b1 == a2 + [c] + b2
    ensures a1 == a2 && b1 == b2
  {
    var w := a1 + [c] + b1;
    assert forall k :: 0 <= k < |a1| ==> w[k] != c by {
      forall k | 0 <= k < |a1| ensures w[k] != c { assert w[k] == a1[k]; }
    }
    assert forall k :: 0 <= k < |a2| ==> w[k] != c by {
      forall k | 0 <= k < |a2| ensures w[k] != c { assert w[k] == a2[k]; }
    }
    assert w[|a1|] == c;
    assert w[|a2|] == c;
    assert |a1| == |a2|;
    assert a1 == w[..|a1|] == a2;
    assert b1 == w[|a1| + 1..] == b2;
  }

  /** A string cut at its last separator: the parts after it hold no separator, so the cut is unique. */
  lemma LastSeparator(a1: string, b1: string, a2: string, b2: string, c: char)
    requires c !in b1 && c !in b2
    requires a1 + [c] + b1 == a2 + [c] + b2
    ensures a1 == a2 && b1 == b2
  {
    var w1 := a1 + [c] + b1;
    var w2 := a2 + [c] + b2;
    assert w1[|a1|] == c && w2[|a2|] == c;
    assert forall k :: |a1| < k < |w1| ==> w1[k] == b1[k - |a1| - 1];
    assert forall k :: |a2| < k < |w2| ==> w2[k] == b2[k - |a2| - 1];
    assert |a1| == |a2|;
    assert a1 == w1[..|a1|] && a2 == w2[..|a2|];
    assert b1 == w1[|a1| + 1..] && b2 == w2[|a2| + 1..];
  }

  /** Dropping the first character of a join drops it from the first piece. */
  lemma JoinDropFirst(pieces: seq<string>, sep: char)
    requires |pieces| >= 1 && |pieces[0]| > 0
    ensures |Join(pieces, sep)| > 0 && Join(pieces, sep)[0] == pieces[0][0]
    ensures Join(pieces, sep)[1..] == Join([pieces[0][1..]] + pieces[1..], sep)
  {
    var p := pieces[0];
    var tail := [p[1..]] + pieces[1..];
    var j := Join(pieces, sep);
    if |pieces| == 1 {
      assert j == p;
    } else {
      var rest := Join(pieces[1..], sep);
      assert tail[1..] == pieces[1..];
      assert Join(tail, sep) == p[1..] + [sep] + rest;
      assert j == p + [sep] + rest;
      assert p == [p[0]] + p[1..];
      assert j == [p[0]] + (p[1..] + [sep] + rest);
    }
  }

  /** Splitting a join of separator-free pieces recovers the pieces. */
  lemma {:induction false} SplitJoin(pieces: seq<string>, sep: char)
    requires |pieces| >= 1
    requires forall k :: 0 <= k < |pieces| ==> sep !in pieces[k]
    ensures Split(Join(pieces, sep), sep) == pieces
    decreases |pieces|, |pieces[0]|
  {
    var p := pieces[0];
    if |p| == 0 {
      if |pieces| > 1 {
        SplitJoin(pieces[1..], sep);
        var j := Join(pieces, sep);
        assert j == [sep] + Join(pieces[1..], sep);
        assert j[1..] == Join(pieces[1..], sep);
      }
    } else {
      var tail := [p[1..]] + pieces[1..];
      assert sep !in tail[0];
      assert forall k :: 1 <= k < |tail| ==> tail[k] == pieces[k];
      SplitJoin(tail, sep);
      var j := Join(pieces, sep);
      JoinDropFirst(pieces, sep);
      assert p[0] != sep;
      assert Split(j, sep) == [[p[0]] + tail[0]] + tail[1..];
      assert [p[0]] + tail[0] == p;
    }
  }

  function DigitChar(d: nat): (c: char)
    requires d < 10
    ensures '0' <= c <= '9' && c as int - '0' as int == d
  {
    "0123456789"[d]
  }

  /** The decimal rendering of a number, as JavaScript concatenates it into a string. */
  function NatToString(n: nat): (r: string)
    ensures |r| >= 1
    ensures forall k :: 0 <= k < |r| ==> '0' <= r[k] <= '9'
  {
    if n < 10 then [DigitChar(n)] else NatToString(n / 10) + [DigitChar(n % 10)]
  }

  /** The value of a string of decimal digits. */
  function DecimalValue(s: string): nat
    requires forall k :: 0 <= k < |s| ==> '0' <= s[k] <= '9'
  {
    if s == [] then 0 else 10 * DecimalValue(s[..|s| - 1]) + ((s[|s| - 1] as int - '0' as int) as nat)
  }

  /** Reading the rendering back gives the number: the rendering loses nothing. */
  lemma {:induction false} DecimalRoundTrip(n: nat)
    ensures DecimalValue(NatToString(n)) == n
  {
    var r := NatToString(n);
    if n < 10 {
      assert r[..0] == [];
    } else {
      DecimalRoundTrip(n / 10);
      assert r[..|r| - 1] == NatToString(n / 10);
      assert r[|r| - 1] == DigitChar(n % 10);
      assert n == 10 * (n / 10) + n % 10;
    }
  }

  /** The rendering is canonical, as `String(n)` is: no leading zero except in "0" itself. */
  lemma {:induction false} NatToStringCanonical(n: nat)
    ensures |NatToString(n)| > 1 ==> NatToString(n)[0] != '0'
    ensures NatToString(n)[0] == '0' ==> n == 0
  {
    if n >= 10 {
      NatToStringCanonical(n / 10);
      assert NatToString(n)[0] == NatToString(n / 10)[0];
    }
  }

  /** Distinct numbers render as distinct strings. */
  lemma NatToStringInjective(m: nat, n: nat)
    requires NatToString(m) == NatToString(n)
    ensures m == n
  {
    DecimalRoundTrip(m);
    DecimalRoundTrip(n);
  }
}
