/**
 * The Python 2 `str` built-ins the core relies on: `strip()`, `split()` with no
 * argument, and `split(sep)` with a separator.
 */
module Text {

  /** Python 2 `str.isspace` on one character: space, \t, \n, \v, \f and \r. */
  predicate IsSpace(c: char) {
    c == ' ' || c == '\t' || c == '\n' || c == '\r' || c == '\U{000B}' || c == '\U{000C}'
  }

  /** Every character of `w` is whitespace. */
  predicate AllSpace(w: string) {
    forall i :: 0 <= i < |w| ==> IsSpace(w[i])
  }

  /** No character of `w` is whitespace. */
  predicate NoSpace(w: string) {
    forall i :: 0 <= i < |w| ==> !IsSpace(w[i])
  }

  /** `s.lstrip()`. */
  function TrimLeft(s: string): (r: string)
    ensures |r| <= |s|
    decreases |s|
  {
    if s != [] && IsSpace(s[0]) then TrimLeft(s[1..]) else s
  }

  /** `s.rstrip()`. */
  function TrimRight(s: string): (r: string)
    ensures |r| <= |s|
    decreases |s|
  {
    if s != [] && IsSpace(s[|s| - 1]) then TrimRight(s[..|s| - 1]) else s
  }

  /** `s.strip()`. */
  function Strip(s: string): string {
    TrimRight(TrimLeft(s))
  }

  /** `lstrip` removes exactly the leading whitespace: a whitespace prefix goes, the rest stays. */
  lemma {:induction false} TrimLeftSpec(s: string)
    ensures var r := TrimLeft(s);
      s == s[..|s| - |r|] + r && AllSpace(s[..|s| - |r|]) && (r == [] || !IsSpace(r[0]))
    decreases |s|
  {
    if s != [] && IsSpace(s[0]) {
      TrimLeftSpec(s[1..]);
      var r := TrimLeft(s);
      assert s[..|s| - |r|] == [s[0]] + s[1..][..|s| - 1 - |r|];
    }
  }

  /** `rstrip` removes exactly the trailing whitespace. */
  lemma {:induction false} TrimRightSpec(s: string)
    ensures var r := TrimRight(s);
      s == r + s[|r|..] && AllSpace(s[|r|..]) && (r == [] || !IsSpace(r[|r| - 1]))
    decreases |s|
  {
    if s != [] && IsSpace(s[|s| - 1]) {
      var t := s[..|s| - 1];
      TrimRightSpec(t);
      var r := TrimRight(s);
      assert s[|r|..] == t[|r|..] + [s[|s| - 1]];
    }
  }

  /** The longest prefix of `s` without whitespace. */
  function Word(s: string): (r: string)
    ensures |r| <= |s|
    decreases |s|
  {
    if s == [] || IsSpace(s[0]) then [] else [s[0]] + Word(s[1..])
  }

  /** `s.split()`: the maximal runs of non-whitespace characters, in order. */
  function Words(s: string): seq<string>
    decreases |s|
  {
    var t := TrimLeft(s);
    if t == [] || IsSpace(t[0]) then [] else
      var w := Word(t);
      [w] + Words(t[|w|..])
  }

  /**
   * `s.split(sep)` for a non-empty separator: cuts at every occurrence of `sep`,
   * scanning from the left, so `"a//b".split("/")` is `["a", "", "b"]`.
   */
  function Split(s: string, sep: string): (r: seq<string>)
    requires sep != []
    ensures |r| >= 1
    decreases |s|
  {
    if s == [] then [""]
    else if sep <= s then [""] + Split(s[|sep|..], sep)
    else
      var rest := Split(s[1..], sep);
      [[s[0]] + rest[0]] + rest[1..]
  }

  /** Number of occurrences of `c` in `s`. */
  function Count(s: string, c: char): nat {
    if s == [] then 0 else (if s[0] == c then 1 else 0) + Count(s[1..], c)
  }

  lemma {:induction false} CountZero(s: string, c: char)
    ensures Count(s, c) == 0 <==> c !in s
    decreases |s|
  {
    if s != [] {
      CountZero(s[1..], c);
      assert s == [s[0]] + s[1..];
    }
  }

  /** A single-character separator never survives in a piece. */
  lemma {:induction false} SplitPiecesFree(s: string, c: char)
    ensures forall k :: 0 <= k < |Split(s, [c])| ==> c !in Split(s, [c])[k]
    decreases |s|
  {
    if s != [] {
      SplitPiecesFree(s[1..], c);
    }
  }

  /** Splitting on a single character yields one more piece than there are occurrences of it. */
  lemma {:induction false} SplitCount(s: string, c: char)
    ensures |Split(s, [c])| == Count(s, c) + 1
    decreases |s|
  {
    if s != [] {
      SplitCount(s[1..], c);
      assert [c] <= s <==> s[0] == c;
    }
  }

  /** A string without the separator's first character comes back as its only piece. */
  lemma {:induction false} SplitNone(s: string, sep: string)
    requires sep != [] && sep[0] !in s
    ensures Split(s, sep) == [s]
    decreases |s|
  {
    if s != [] {
      assert s[0] != sep[0];
      SplitNone(s[1..], sep);
      assert s == [s[0]] + s[1..];
    }
  }

  /** A string in which the separator occurs nowhere comes back as its only piece. */
  lemma {:induction false} SplitNoOcc(s: string, sep: string)
    requires sep != []
    requires forall k :: 0 <= k <= |s| ==> !(sep <= s[k..])
    ensures Split(s, sep) == [s]
    decreases |s|
  {
    if s != [] {
      assert s[0..] == s;
      forall k | 0 <= k <= |s[1..]| ensures !(sep <= s[1..][k..]) {
        assert s[1..][k..] == s[k + 1..];
      }
      SplitNoOcc(s[1..], sep);
      assert s == [s[0]] + s[1..];
    }
  }

  /** The first piece is everything before the first separator. */
  lemma {:induction false} SplitFirst(a: string, sep: string, b: string)
    requires sep != [] && sep[0] !in a
    ensures Split(a + sep + b, sep) == [a] + Split(b, sep)
    decreases |a|
  {
    var s := a + sep + b;
    if a == [] {
      assert s == sep + b && s[|sep|..] == b;
    } else {
      assert s[0] == a[0] != sep[0];
      assert !(sep <= s);
      assert s[1..] == a[1..] + sep + b;
      SplitFirst(a[1..], sep, b);
      var rest := Split(s[1..], sep);
      assert rest == [a[1..]] + Split(b, sep);
      assert rest[1..] == Split(b, sep);
      assert [s[0]] + rest[0] == a;
    }
  }

  /** The first piece ends at the first separator, or at the end of the string. */
  lemma SplitHead(a: string, sep: string, tail: string)
    requires sep != [] && sep[0] !in a
    requires tail == [] || sep <= tail
    ensures Split(a + tail, sep)[0] == a
  {
    if tail == [] {
      assert a + tail == a;
      SplitNone(a, sep);
    } else {
      assert tail == sep + tail[|sep|..];
      assert a + tail == a + sep + tail[|sep|..];
      SplitFirst(a, sep, tail[|sep|..]);
    }
  }

  /** `split()` on a word followed by whitespace (or nothing) returns that word first. */
  lemma WordsFirst(w: string, rest: string)
    requires w != [] && NoSpace(w)
    requires rest == [] || IsSpace(rest[0])
    ensures Words(w + rest) == [w] + Words(rest)
  {
    var s := w + rest;
    assert s[0] == w[0];
    assert TrimLeft(s) == s;
    WordPrefix(w, rest);
    assert s[|w|..] == rest;
  }

  lemma {:induction false} WordPrefix(w: string, rest: string)
    requires NoSpace(w)
    requires rest == [] || IsSpace(rest[0])
    ensures Word(w + rest) == w
    decreases |w|
  {
    if w == [] {
      assert w + rest == rest;
    } else {
      assert (w + rest)[1..] == w[1..] + rest;
      WordPrefix(w[1..], rest);
      assert w == [w[0]] + w[1..];
    }
  }
}
