/**
 * Python string primitives used by the interview wizard: `str.isspace`,
 * `str.strip`, `str.lstrip`, `str.split(sep)` for a one-character separator,
 * and the join that undoes that split.
 */
module Text {

  /** Python's `str.isspace()` for one character. The same set is what `\s`
      matches in a `re` pattern applied to a `str`. */
  predicate IsSpace(c: char)
  {
    || c == ' '
    || ('\t' <= c <= '\r')                 // \t \n \x0b \x0c \r
    || ('\U{1C}' <= c <= '\U{1F}')         // file, group, record, unit separators
    || c == '\U{85}' || c == '\U{A0}' || c == '\U{1680}'
    || ('\U{2000}' <= c <= '\U{200A}')
    || c == '\U{2028}' || c == '\U{2029}' || c == '\U{202F}' || c == '\U{205F}'
    || c == '\U{3000}'
  }

  /** Every character is whitespace (the empty string included). */
  predicate IsBlank(s: string)
  {
    forall k :: 0 <= k < |s| ==> IsSpace(s[k])
  }

  /** No whitespace at either end. */
  predicate IsTrimmed(s: string)
  {
    s == [] || (!IsSpace(s[0]) && !IsSpace(s[|s| - 1]))
  }

  /** `s.lstrip()`: drops the longest whitespace prefix. */
  function TrimLeft(s: string): (r: string)
    ensures |r| <= |s|
    ensures r == [] || !IsSpace(r[0])
  {
    if |s| > 0 && IsSpace(s[0]) then TrimLeft(s[1..]) else s
  }

  /** What TrimLeft drops is whitespace, and what it keeps is a suffix. */
  lemma {:induction false} TrimLeftParts(s: string)
    ensures TrimLeft(s) == s[|s| - |TrimLeft(s)|..]
    ensures IsBlank(s[..|s| - |TrimLeft(s)|])
  {
    if |s| > 0 && IsSpace(s[0]) {
      TrimLeftParts(s[1..]);
      assert s[1..][..|s| - 1 - |TrimLeft(s)|] == s[1..|s| - |TrimLeft(s)|];
    }
  }

  /** `s.rstrip()`: drops the longest whitespace suffix. */
  function TrimRight(s: string): (r: string)
    ensures |r| <= |s|
    ensures r == [] || !IsSpace(r[|r| - 1])
  {
    if |s| > 0 && IsSpace(s[|s| - 1]) then TrimRight(s[..|s| - 1]) else s
  }

  /** What TrimRight drops is whitespace, and what it keeps is a prefix. */
  lemma {:induction false} TrimRightParts(s: string)
    ensures TrimRight(s) == s[..|TrimRight(s)|]
    ensures IsBlank(s[|TrimRight(s)|..])
  {
    if |s| > 0 && IsSpace(s[|s| - 1]) {
      TrimRightParts(s[..|s| - 1]);
      assert s[..|s| - 1][|TrimRight(s)|..] == s[|TrimRight(s)|..|s| - 1];
    }
  }

  /** `s.strip()`. The result is trimmed, and it is empty exactly when `s` is
      blank, which is why `if s.strip():` is the source's "not blank" test. */
  function Strip(s: string): (r: string)
    ensures |r| <= |s|
    ensures IsTrimmed(r)
    ensures r == [] <==> IsBlank(s)
  {
    var t := TrimLeft(s);
    var r := TrimRight(t);
    TrimLeftParts(s);
    TrimRightParts(t);
    assert r == [] ==> t == t[|r|..];
    assert IsBlank(s) ==> t == [] by {
      if t != [] { assert t[0] == s[|s| - |t|]; }
    }
    assert r != [] ==> r[0] == t[0];
    r
  }

  /** Strip removes exactly a blank prefix and a blank suffix: `s` is
      `lead + Strip(s) + trail` with `lead` and `trail` all whitespace. */
  lemma StripParts(s: string) returns (i: nat)
    ensures i + |Strip(s)| <= |s|
    ensures Strip(s) == s[i..i + |Strip(s)|]
    ensures IsBlank(s[..i]) && IsBlank(s[i + |Strip(s)|..])
  {
    var t := TrimLeft(s);
    var r := TrimRight(t);
    TrimLeftParts(s);
    TrimRightParts(t);
    i := |s| - |t|;
    assert r == t[..|r|];
    assert t == s[i..];
    assert s[i + |r|..] == t[|r|..];
  }

  /** A string that is already trimmed is a fixed point of Strip; in
      particular Strip is idempotent. */
  lemma StripTrimmed(s: string)
    requires IsTrimmed(s)
    ensures Strip(s) == s
  {
  }

  /** Whitespace in front of a string is invisible to Strip. */
  lemma StripSpacePrefix(w: string, s: string)
    requires IsBlank(w)
    ensures Strip(w + s) == Strip(s)
  {
    TrimLeftSpacePrefix(w, s);
  }

  lemma {:induction false} TrimLeftSpacePrefix(w: string, s: string)
    requires IsBlank(w)
    ensures TrimLeft(w + s) == TrimLeft(s)
  {
    if w != [] {
      assert (w + s)[1..] == w[1..] + s;
      assert (w + s)[0] == w[0];
      TrimLeftSpacePrefix(w[1..], s);
    } else {
      assert w + s == s;
    }
  }

  /** `s.split(sep)` for a one-character separator: the pieces between the
      separators, an empty piece where two separators touch or at an end. */
  function SplitOn(s: string, sep: char): (parts: seq<string>)
    ensures |parts| >= 1
    ensures forall k :: 0 <= k < |parts| ==> sep !in parts[k]
  {
    if |s| == 0 then [""]
    else
      var rest := SplitOn(s[1..], sep);
      if s[0] == sep then [""] + rest else [[s[0]] + rest[0]] + rest[1..]
  }

  /** `sep.join(parts)`, the inverse of SplitOn. */
  function Join(parts: seq<string>, sep: char): string
    requires |parts| >= 1
  {
    if |parts| == 1 then parts[0] else parts[0] + [sep] + Join(parts[1..], sep)
  }

  /** Splitting and joining again gives back the text. */
  lemma {:induction false} JoinSplit(s: string, sep: char)
    ensures Join(SplitOn(s, sep), sep) == s
  {
    if |s| > 0 {
      JoinSplit(s[1..], sep);
      var rest := SplitOn(s[1..], sep);
      if s[0] == sep {
        assert SplitOn(s, sep)[1..] == rest;
      } else {
        var parts := SplitOn(s, sep);
        assert parts[1..] == rest[1..];
        if |rest| > 1 {
          assert Join(rest, sep) == rest[0] + [sep] + Join(rest[1..], sep);
        }
      }
    }
  }

  /** A separator splits the text into the pieces before it and the pieces
      after it, wherever else separators occur. */
  lemma {:induction false} SplitAppend(x: string, sep: char, y: string)
    ensures SplitOn(x + [sep] + y, sep) == SplitOn(x, sep) + SplitOn(y, sep)
  {
    if |x| == 0 {
      assert ([sep] + y)[1..] == y;
    } else {
      var s := x + [sep] + y;
      assert s[1..] == x[1..] + [sep] + y && s[0] == x[0];
      var px, py := SplitOn(x[1..], sep), SplitOn(y, sep);
      SplitAppend(x[1..], sep, y);
      var rest := SplitOn(s[1..], sep);
      assert rest == px + py;
      if x[0] != sep {
        assert rest[0] == px[0];
        assert rest[1..] == px[1..] + py;
        assert SplitOn(s, sep) == [[x[0]] + px[0]] + rest[1..];
        assert SplitOn(x, sep) == [[x[0]] + px[0]] + px[1..];
      }
    }
  }

  /** A piece without the separator is not split. */
  lemma {:induction false} SplitNone(x: string, sep: char)
    requires sep !in x
    ensures SplitOn(x, sep) == [x]
  {
    if |x| > 0 {
      SplitNone(x[1..], sep);
      assert [x[0]] + x[1..] == x;
    }
  }

  /** A separator after a separator-free piece ends that piece. */
  lemma {:induction false} SplitCons(x: string, sep: char, y: string)
    requires sep !in x
    ensures SplitOn(x + [sep] + y, sep) == [x] + SplitOn(y, sep)
  {
    if |x| == 0 {
      assert ([sep] + y)[1..] == y;
    } else {
      SplitCons(x[1..], sep, y);
      assert (x + [sep] + y)[1..] == x[1..] + [sep] + y;
      assert [x[0]] + x[1..] == x;
    }
  }

  /** Joining pieces that do not contain the separator and splitting again
      gives back the pieces. */
  lemma {:induction false} SplitJoin(parts: seq<string>, sep: char)
    requires |parts| >= 1
    requires forall k :: 0 <= k < |parts| ==> sep !in parts[k]
    ensures SplitOn(Join(parts, sep), sep) == parts
  {
    if |parts| == 1 {
      SplitNone(parts[0], sep);
    } else {
      SplitJoin(parts[1..], sep);
      SplitCons(parts[0], sep, Join(parts[1..], sep));
    }
  }
}
