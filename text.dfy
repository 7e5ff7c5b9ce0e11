/** The string operations the chat code relies on, over ASCII:
    whitespace, lower-casing, trimming, substring search, and Python's
    `str.split()` / `" ".join(...)`. */
module Text {

  /** The ASCII whitespace characters: space, tab, line feed, vertical tab,
      form feed and carriage return. */
  predicate IsSpace(c: char) {
    c == ' ' || c == '\t' || c == '\n' || c == '\r' || c == '\U{000B}' || c == '\U{000C}'
  }

  predicate AllSpace(s: string) {
    forall i :: 0 <= i < |s| ==> IsSpace(s[i])
  }

  /** No whitespace at either end. */
  predicate NoEdgeSpace(s: string) {
    s == [] || (!IsSpace(s[0]) && !IsSpace(s[|s| - 1]))
  }

  /** No two whitespace characters next to each other. */
  predicate NoDoubleSpace(s: string) {
    forall i :: 0 <= i < |s| - 1 ==> !(IsSpace(s[i]) && IsSpace(s[i + 1]))
  }

  /** Every whitespace character is a plain space. */
  predicate OnlyPlainSpace(s: string) {
    forall i :: 0 <= i < |s| && IsSpace(s[i]) ==> s[i] == ' '
  }

  /** A word of `str.split()`: non-empty and free of whitespace. */
  predicate IsWord(w: string) {
    |w| > 0 && forall i :: 0 <= i < |w| ==> !IsSpace(w[i])
  }

  function LowerChar(c: char): (d: char)
    ensures 'A' <= c <= 'Z' ==> d as int == c as int + 32
    ensures !('A' <= c <= 'Z') ==> d == c
  {
    if 'A' <= c <= 'Z' then (c as int + 32) as char else c
  }

  /** Python's `str.lower()` on ASCII letters. */
  function Lower(s: string): (r: string)
    ensures |r| == |s|
    ensures forall i :: 0 <= i < |s| ==> r[i] == LowerChar(s[i])
  {
    seq(|s|, i requires 0 <= i < |s| => LowerChar(s[i]))
  }

  lemma LowerIdempotent(s: string)
    ensures Lower(Lower(s)) == Lower(s)
  {
  }

  /** Drops the leading whitespace: the result is a suffix of `s` and only
      whitespace was dropped. */
  function TrimLeft(s: string): (r: string)
    ensures |r| <= |s| && r == s[|s| - |r|..]
    ensures r == [] || !IsSpace(r[0])
    ensures forall i :: 0 <= i < |s| - |r| ==> IsSpace(s[i])
  {
    if s != [] && IsSpace(s[0]) then TrimLeft(s[1..]) else s
  }

  /** Drops the trailing whitespace: the result is a prefix of `s` and only
      whitespace was dropped. */
  function TrimRight(s: string): (r: string)
    ensures |r| <= |s| && r == s[..|r|]
    ensures r == [] || !IsSpace(r[|r| - 1])
    ensures forall i :: |r| <= i < |s| ==> IsSpace(s[i])
  {
    if s != [] && IsSpace(s[|s| - 1]) then TrimRight(s[..|s| - 1]) else s
  }

  /** Python's `str.strip()` and JavaScript's `String.prototype.trim()`. */
  function Strip(s: string): (r: string)
    ensures NoEdgeSpace(r)
  {
    TrimRight(TrimLeft(s))
  }

  /** A string is blank (`not s.strip()`, `!s.trim()`) exactly when it is
      all whitespace. */
  lemma StripEmptyIffAllSpace(s: string)
    ensures Strip(s) == [] <==> AllSpace(s)
  {
    var l := TrimLeft(s);
    // A non-space first character of `l` would survive the right trim.
    assert l != [] ==> !IsSpace(l[0]) && TrimRight(l) != [];
  }

  /** Stripping a string with no whitespace at its ends changes nothing. */
  lemma StripNoEdgeSpace(s: string)
    requires NoEdgeSpace(s)
    ensures Strip(s) == s
  {
  }

  /** Stripping preserves "no two whitespace characters in a row" and
      "every whitespace is a plain space": the result is a slice of `s`. */
  lemma {:induction false} StripKeepsSpacing(s: string)
    requires NoDoubleSpace(s) && OnlyPlainSpace(s)
    ensures NoDoubleSpace(Strip(s)) && OnlyPlainSpace(Strip(s))
  {
    var l := TrimLeft(s);
    var d := |s| - |l|;
    var r := TrimRight(l);
    forall i | 0 <= i < |r|
      ensures r[i] == s[d + i]
    {
      assert r[i] == l[i];
    }
  }

  /** Dropping the first character keeps single plain spaces, and after a
      space comes no other whitespace. */
  lemma SpacingOfTail(t: string)
    requires t != [] && NoDoubleSpace(t) && OnlyPlainSpace(t)
    ensures NoDoubleSpace(t[1..]) && OnlyPlainSpace(t[1..])
    ensures IsSpace(t[0]) ==> t[0] == ' ' && (|t| == 1 || !IsSpace(t[1..][0]))
  {
    var u := t[1..];
    forall i | 0 <= i < |u|
      ensures u[i] == t[i + 1]
    {
    }
  }

  /** The longest whitespace-free prefix of `s`. */
  function TakeWord(s: string): (w: string)
    ensures |w| <= |s| && w == s[..|w|]
    ensures forall i :: 0 <= i < |w| ==> !IsSpace(w[i])
    ensures |w| == |s| || IsSpace(s[|w|])
  {
    if s == [] || IsSpace(s[0]) then [] else [s[0]] + TakeWord(s[1..])
  }

  /** Python's `str.split()` with no argument: the maximal runs of
      non-whitespace characters, in order. */
  function Words(s: string): (ws: seq<string>)
    ensures forall i :: 0 <= i < |ws| ==> IsWord(ws[i])
    decreases |s|
  {
    if s == [] then []
    else if IsSpace(s[0]) then Words(s[1..])
    else
      var w := TakeWord(s);
      [w] + Words(s[|w|..])
  }

  /** Python's `" ".join(ws)`. */
  function JoinSpace(ws: seq<string>): string {
    if |ws| == 0 then ""
    else if |ws| == 1 then ws[0]
    else ws[0] + " " + JoinSpace(ws[1..])
  }

  lemma {:induction false} TakeWordOfWord(w: string, t: string)
    requires forall i :: 0 <= i < |w| ==> !IsSpace(w[i])
    requires t == [] || IsSpace(t[0])
    ensures TakeWord(w + t) == w
  {
    if w != [] {
      assert (w + t)[1..] == w[1..] + t;
      TakeWordOfWord(w[1..], t);
    }
  }

  lemma WordsAfterSpace(c: char, s: string)
    requires IsSpace(c)
    ensures Words([c] + s) == Words(s)
  {
    assert ([c] + s)[1..] == s;
  }

  /** Words of a non-empty word followed by `rest` (which is empty or
      starts with whitespace). */
  lemma WordsOfWordThen(w: string, rest: string)
    requires IsWord(w)
    requires rest == [] || IsSpace(rest[0])
    ensures Words(w + rest) == [w] + Words(rest)
  {
    TakeWordOfWord(w, rest);
    assert (w + rest)[|w|..] == rest;
  }

  /** Splitting undoes joining: `" ".join(ws).split() == ws` for words. */
  lemma {:induction false} WordsOfJoin(ws: seq<string>)
    requires forall i :: 0 <= i < |ws| ==> IsWord(ws[i])
    ensures Words(JoinSpace(ws)) == ws
  {
    if |ws| == 1 {
      WordsOfWordThen(ws[0], "");
      assert ws[0] + "" == ws[0];
    } else if |ws| > 1 {
      var rest := JoinSpace(ws[1..]);
      assert JoinSpace(ws) == ws[0] + ([' '] + rest);
      WordsOfWordThen(ws[0], [' '] + rest);
      WordsAfterSpace(' ', rest);
      WordsOfJoin(ws[1..]);
      assert ws == [ws[0]] + ws[1..];
    }
  }

  /** Appending a suffix to a join appends it to the last word. */
  lemma {:induction false} JoinAppend(ws: seq<string>, x: string)
    requires |ws| > 0
    ensures JoinSpace(ws) + x == JoinSpace(ws[..|ws| - 1] + [ws[|ws| - 1] + x])
  {
    if |ws| > 1 {
      var tl := ws[1..];
      var vs := ws[..|ws| - 1] + [ws[|ws| - 1] + x];
      JoinAppend(tl, x);
      assert vs[0] == ws[0];
      assert vs[1..] == tl[..|tl| - 1] + [tl[|tl| - 1] + x];
      calc {
        JoinSpace(ws) + x;
        (ws[0] + " " + JoinSpace(tl)) + x;
        ws[0] + " " + (JoinSpace(tl) + x);
        ws[0] + " " + JoinSpace(vs[1..]);
        JoinSpace(vs);
      }
    }
  }

  /** Leading whitespace adds no words. */
  lemma {:induction false} WordsOfTrimLeft(s: string)
    ensures Words(TrimLeft(s)) == Words(s)
    decreases |s|
  {
    if s != [] && IsSpace(s[0]) {
      WordsOfTrimLeft(s[1..]);
    }
  }

  /** Text made only of whitespace has no words. */
  lemma {:induction false} WordsOfAllSpace(t: string)
    requires AllSpace(t)
    ensures Words(t) == []
    decreases |t|
  {
    if t != [] {
      assert AllSpace(t[1..]) by {
        forall i | 0 <= i < |t[1..]| ensures t[1..][i] == t[i + 1] { }
      }
      WordsOfAllSpace(t[1..]);
    }
  }

  /** Trailing whitespace does not change the first word. */
  lemma TakeWordSpaceAfter(x: string, t: string)
    requires AllSpace(t)
    ensures TakeWord(x + t) == TakeWord(x)
  {
    var w := TakeWord(x);
    if |w| < |x| {
      assert x + t == w + (x[|w|..] + t);
      TakeWordOfWord(w, x[|w|..] + t);
    } else {
      assert x + t == w + t;
      TakeWordOfWord(w, t);
    }
  }

  /** Trailing whitespace adds no words. */
  lemma {:induction false} WordsSpaceAfter(x: string, t: string)
    requires AllSpace(t)
    ensures Words(x + t) == Words(x)
    decreases |x|
  {
    if x == [] {
      assert x + t == t;
      WordsOfAllSpace(t);
    } else if IsSpace(x[0]) {
      assert (x + t)[1..] == x[1..] + t;
      WordsSpaceAfter(x[1..], t);
    } else {
      var w := TakeWord(x);
      TakeWordSpaceAfter(x, t);
      assert (x + t)[|w|..] == x[|w|..] + t;
      WordsSpaceAfter(x[|w|..], t);
    }
  }

  /** Stripping keeps the words: `s.strip().split() == s.split()`. */
  lemma WordsOfStrip(s: string)
    ensures Words(Strip(s)) == Words(s)
  {
    var l := TrimLeft(s);
    var r := TrimRight(l);
    assert l == r + l[|r|..];
    assert AllSpace(l[|r|..]) by {
      forall i | 0 <= i < |l[|r|..]| ensures l[|r|..][i] == l[|r| + i] { }
    }
    WordsSpaceAfter(r, l[|r|..]);
    WordsOfTrimLeft(s);
  }

  /** A non-space character followed by `x` is a word of its own when `x`
      is empty or starts with whitespace, and otherwise the start of the
      first word of `x`. */
  lemma ConsWord(c: char, x: string)
    requires !IsSpace(c)
    ensures x == [] || IsSpace(x[0]) ==> Words([c] + x) == [[c]] + Words(x)
    ensures x != [] && !IsSpace(x[0]) ==> Words([c] + x) == [[c] + Words(x)[0]] + Words(x)[1..]
  {
    var cx := [c] + x;
    assert cx[1..] == x;
    var w := TakeWord(x);
    assert TakeWord(cx) == [c] + w;
    assert cx[|[c] + w|..] == x[|w|..];
  }

  /** Two texts with the same words, both empty or both starting with
      whitespace or both not, keep the same words behind a non-space
      character. */
  lemma ConsSameWords(c: char, x: string, y: string)
    requires !IsSpace(c)
    requires Words(x) == Words(y)
    requires x == [] <==> y == []
    requires x != [] && y != [] ==> (IsSpace(x[0]) <==> IsSpace(y[0]))
    ensures Words([c] + x) == Words([c] + y)
  {
    ConsWord(c, x);
    ConsWord(c, y);
  }

  /** `" ".join([w] + ws)` for a non-empty `ws`. */
  lemma JoinCons(w: string, ws: seq<string>)
    requires ws != []
    ensures JoinSpace([w] + ws) == w + " " + JoinSpace(ws)
  {
    assert ([w] + ws)[1..] == ws;
  }

  /** In clean text, whitespace after the first character is a single plain
      space followed by more clean text. */
  lemma CleanAfterSpace(t: string, k: nat)
    requires NoEdgeSpace(t) && NoDoubleSpace(t) && OnlyPlainSpace(t)
    requires 0 < k < |t| && IsSpace(t[k])
    ensures t[k] == ' ' && k + 1 < |t|
    ensures NoEdgeSpace(t[k + 1..]) && NoDoubleSpace(t[k + 1..]) && OnlyPlainSpace(t[k + 1..])
  {
    var rest := t[k + 1..];
    forall i | 0 <= i < |rest|
      ensures rest[i] == t[k + 1 + i]
    {
    }
  }

  /** Text with no whitespace at its ends, no two whitespace characters in
      a row and only plain spaces is the space-join of its own words:
      `" ".join(t.split()) == t`. */
  lemma {:induction false} CleanIsJoin(t: string)
    requires NoEdgeSpace(t) && NoDoubleSpace(t) && OnlyPlainSpace(t)
    ensures JoinSpace(Words(t)) == t
    decreases |t|
  {
    if t != [] {
      var w := TakeWord(t);
      assert IsWord(w);
      if |w| == |t| {
        assert w == t && t + [] == t;
        WordsOfWordThen(t, []);
      } else {
        CleanAfterSpace(t, |w|);
        var rest := t[|w| + 1..];
        assert t == w + ([' '] + rest);
        WordsOfWordThen(w, [' '] + rest);
        WordsAfterSpace(' ', rest);
        CleanIsJoin(rest);
        JoinCons(w, Words(rest));
      }
    }
  }

  /** `k` occurs in `s` starting at index `i`. */
  predicate OccursAt(s: string, k: string, i: int) {
    0 <= i <= |s| - |k| && s[i..i + |k|] == k
  }

  /** `k in s` for strings: `k` occurs as a contiguous substring of `s`. */
  function Contains(s: string, k: string): (r: bool)
    ensures r <==> exists i :: OccursAt(s, k, i)
    decreases |s|
  {
    if |k| > |s| then false
    else if s[..|k|] == k then assert OccursAt(s, k, 0); true
    else
      var r := Contains(s[1..], k);
      assert r ==> exists i :: OccursAt(s, k, i) by {
        if r {
          var i :| OccursAt(s[1..], k, i);
          assert s[i + 1..i + 1 + |k|] == s[1..][i..i + |k|];
          assert OccursAt(s, k, i + 1);
        }
      }
      assert (exists i :: OccursAt(s, k, i)) ==> r by {
        if exists i :: OccursAt(s, k, i) {
          var i :| OccursAt(s, k, i);
          assert i != 0;
          assert s[1..][i - 1..i - 1 + |k|] == s[i..i + |k|];
          assert OccursAt(s[1..], k, i - 1);
        }
      }
      r
  }
}
