/**
 * The Python `str` operations the line parser is built from, over characters
 * taken as ASCII: `find`, `strip`, deleting `string.whitespace`, `split` on a
 * single character, `count`, `replace(c, '')`, the slice `[1::2]`, and rebuilding
 * a string from the parts of a split (`c.join`).
 */
module PyStr {

  /** A character of Python's `string.whitespace`: space, tab, LF, VT, FF, CR. */
  predicate IsWhitespace(ch: char) {
    ch == ' ' || '\t' <= ch <= '\r'
  }

  /** `p` occurs in `s` starting at index `i`. */
  predicate OccursAt(s: string, p: string, i: int) {
    0 <= i && i + |p| <= |s| && s[i..i + |p|] == p
  }

  /** `s.find(p)`: the first index at which `p` occurs in `s`, or -1 when it does not occur. */
  function Find(s: string, p: string): (r: int)
    ensures r == -1 || OccursAt(s, p, r)
    ensures forall j :: 0 <= j && (r == -1 || j < r) ==> !OccursAt(s, p, j)
  {
    FindFrom(s, p, 0)
  }

  /** The first occurrence of `p` in `s` at an index no smaller than `from`, or -1. */
  function FindFrom(s: string, p: string, from: nat): (r: int)
    ensures r == -1 || (from <= r && OccursAt(s, p, r))
    ensures forall j :: from <= j && (r == -1 || j < r) ==> !OccursAt(s, p, j)
    decreases |s| - from
  {
    if from + |p| > |s| then -1
    else if s[from..from + |p|] == p then from
    else FindFrom(s, p, from + 1)
  }

  predicate AllWhitespace(s: string) {
    forall i :: 0 <= i < |s| ==> IsWhitespace(s[i])
  }

  predicate NoWhitespace(s: string) {
    forall i :: 0 <= i < |s| ==> !IsWhitespace(s[i])
  }

  /** The index of the first character at or after `i` that is not whitespace, or `|s|`. */
  function SkipLeading(s: string, i: nat): (k: nat)
    requires i <= |s|
    ensures i <= k <= |s|
    ensures forall j :: i <= j < k ==> IsWhitespace(s[j])
    ensures k < |s| ==> !IsWhitespace(s[k])
    decreases |s| - i
  {
    if i < |s| && IsWhitespace(s[i]) then SkipLeading(s, i + 1) else i
  }

  /** The index just past the last character before `j` that is not whitespace, or 0. */
  function SkipTrailing(s: string, j: nat): (k: nat)
    requires j <= |s|
    ensures k <= j
    ensures forall i :: k <= i < j ==> IsWhitespace(s[i])
    ensures 0 < k ==> !IsWhitespace(s[k - 1])
  {
    if 0 < j && IsWhitespace(s[j - 1]) then SkipTrailing(s, j - 1) else j
  }

  /** `s.strip()`: `s` without its leading and trailing whitespace. */
  function Strip(s: string): (r: string)
    ensures r == [] || (!IsWhitespace(r[0]) && !IsWhitespace(r[|r| - 1]))
    ensures r == [] <==> AllWhitespace(s)
    ensures NoWhitespace(s) ==> r == s
  {
    var i := SkipLeading(s, 0);
    var j := SkipTrailing(s, |s|);
    if i == |s| then []
    else if i == 0 && j == |s| then s
    else
      assert i < j;
      s[i..j]
  }

  /** Stripping keeps the characters between the first and the last non-whitespace one. */
  lemma StripRange(s: string) returns (i: nat, j: nat)
    ensures i <= j <= |s| && Strip(s) == s[i..j]
    ensures forall k :: 0 <= k < i ==> IsWhitespace(s[k])
    ensures forall k :: j <= k < |s| ==> IsWhitespace(s[k])
  {
    i, j := SkipLeading(s, 0), SkipTrailing(s, |s|);
    if i == |s| {
      j := i;
    } else if i == 0 && j == |s| {
      assert s[i..j] == s;
    }
  }

  /** Stripping removes nothing but whitespace. */
  lemma StripKeeps(s: string)
    ensures forall k :: 0 <= k < |s| ==> IsWhitespace(s[k]) || s[k] in Strip(s)
  {
    var i, j := StripRange(s);
    forall k | 0 <= k < |s| && !IsWhitespace(s[k]) ensures s[k] in Strip(s) {
      assert Strip(s)[k - i] == s[k];
    }
  }

  /** Stripping adds no character. */
  lemma StripAddsNothing(s: string, ch: char)
    requires ch !in s
    ensures ch !in Strip(s)
  {
    var i, j := StripRange(s);
    forall k | 0 <= k < j - i ensures Strip(s)[k] != ch {
      assert Strip(s)[k] == s[i + k];
    }
  }

  /** `s.translate(dict.fromkeys(map(ord, string.whitespace)))`: `s` with every whitespace character deleted. */
  function RemoveWhitespace(s: string): (r: string)
    ensures |r| <= |s|
    ensures forall i :: 0 <= i < |r| ==> !IsWhitespace(r[i])
    ensures (forall i :: 0 <= i < |s| ==> !IsWhitespace(s[i])) ==> r == s
  {
    if s == [] then []
    else
      var r := RemoveWhitespace(s[..|s| - 1]);
      if IsWhitespace(s[|s| - 1]) then r
      else
        assert (forall i :: 0 <= i < |s| ==> !IsWhitespace(s[i])) ==> s == s[..|s| - 1] + [s[|s| - 1]];
        r + [s[|s| - 1]]
  }

  /** `s.count(c)`: the number of occurrences of the character `c` in `s`. */
  function Count(s: string, c: char): (n: nat)
    ensures n <= |s|
    ensures n == 0 <==> c !in s
  {
    if s == [] then 0
    else
      assert s == s[..|s| - 1] + [s[|s| - 1]];
      Count(s[..|s| - 1], c) + (if s[|s| - 1] == c then 1 else 0)
  }

  /** `c.join(parts)`: the parts glued together with `c` between neighbours. */
  function Join(parts: seq<string>, c: char): string
    requires parts != []
  {
    if |parts| == 1 then parts[0] else parts[0] + [c] + Join(parts[1..], c)
  }

  /** `s.split(c)` for a single-character separator: empty parts are kept. */
  function SplitOn(s: string, c: char): (parts: seq<string>)
    ensures |parts| >= 1
    ensures forall i :: 0 <= i < |parts| ==> c !in parts[i]
  {
    if s == [] then [[]]
    else
      var rest := SplitOn(s[1..], c);
      if s[0] == c then [[]] + rest
      else [[s[0]] + rest[0]] + rest[1..]
  }

  /** A split has one part more than there are separators. */
  lemma {:induction false} SplitOnCount(s: string, c: char)
    ensures |SplitOn(s, c)| == Count(s, c) + 1
  {
    if s != [] {
      SplitOnCount(s[1..], c);
      assert s == [s[0]] + s[1..];
      CountAppend([s[0]], s[1..], c);
    }
  }

  /** A string that does not end in the separator does not end in an empty part. */
  lemma {:induction false} SplitOnLast(s: string, c: char)
    requires s != [] && s[|s| - 1] != c
    ensures SplitOn(s, c)[|SplitOn(s, c)| - 1] != []
  {
    if |s| > 1 {
      SplitOnLast(s[1..], c);
    }
  }

  /** Joining the parts of a split with the separator gives back the string. */
  lemma {:induction false} SplitJoin(s: string, c: char)
    ensures Join(SplitOn(s, c), c) == s
  {
    if s != [] {
      var rest := SplitOn(s[1..], c);
      SplitJoin(s[1..], c);
      if s[0] == c {
        assert SplitOn(s, c) == [[]] + rest;
        assert ([[]] + rest)[1..] == rest;
      } else {
        JoinExtendHead(rest, [s[0]], c);
      }
    }
  }

  /** Prepending text to the first part prepends it to the joined string. */
  lemma JoinExtendHead(parts: seq<string>, x: string, c: char)
    requires parts != []
    ensures Join([x + parts[0]] + parts[1..], c) == x + Join(parts, c)
  {
    var extended := [x + parts[0]] + parts[1..];
    assert extended[1..] == parts[1..];
  }

  /** `s.split(c)[1::2]`: every second part, the text between the 1st and 2nd, 3rd and 4th, ... `c`. */
  function OddParts(parts: seq<string>): (r: seq<string>)
    ensures |r| == |parts| / 2
    ensures forall i :: 0 <= i < |r| ==> r[i] == parts[2 * i + 1]
  {
    seq(|parts| / 2, i requires 0 <= i < |parts| / 2 => parts[2 * i + 1])
  }

  /** `s.replace(c, '')`: `s` with every occurrence of `c` deleted. */
  function RemoveChar(s: string, c: char): (r: string)
    ensures |r| == |s| - Count(s, c)
    ensures forall i :: 0 <= i < |r| ==> r[i] != c
    ensures c !in s ==> r == s
  {
    if s == [] then []
    else
      var r := RemoveChar(s[..|s| - 1], c);
      if s[|s| - 1] == c then r
      else
        assert c !in s ==> s == s[..|s| - 1] + [s[|s| - 1]];
        r + [s[|s| - 1]]
  }

  /** Every character that survives `replace(c, '')` was in the original. */
  lemma {:induction false} RemoveCharKeeps(s: string, c: char)
    ensures forall i :: 0 <= i < |RemoveChar(s, c)| ==> RemoveChar(s, c)[i] in s
  {
    if s != [] {
      var init := s[..|s| - 1];
      RemoveCharKeeps(init, c);
      assert forall ch :: ch in init ==> ch in s;
    }
  }

  /** Deleting whitespace keeps exactly the other characters. */
  lemma {:induction false} RemoveWhitespaceKeeps(s: string)
    ensures forall ch :: ch in RemoveWhitespace(s) <==> ch in s && !IsWhitespace(ch)
  {
    if s != [] {
      RemoveWhitespaceKeeps(s[..|s| - 1]);
      assert s == s[..|s| - 1] + [s[|s| - 1]];
    }
  }

  /** Deleting all of `c` splits over concatenation. */
  lemma {:induction false} RemoveCharAppend(a: string, b: string, c: char)
    ensures RemoveChar(a + b, c) == RemoveChar(a, c) + RemoveChar(b, c)
  {
    if b == [] {
      assert a + b == a;
    } else {
      assert (a + b)[..|a + b| - 1] == a + b[..|b| - 1];
      RemoveCharAppend(a, b[..|b| - 1], c);
    }
  }

  /** Deleting all whitespace splits over concatenation. */
  lemma {:induction false} RemoveWhitespaceAppend(a: string, b: string)
    ensures RemoveWhitespace(a + b) == RemoveWhitespace(a) + RemoveWhitespace(b)
  {
    if b == [] {
      assert a + b == a;
    } else {
      assert (a + b)[..|a + b| - 1] == a + b[..|b| - 1];
      RemoveWhitespaceAppend(a, b[..|b| - 1]);
    }
  }

  /** Counting splits over concatenation. */
  lemma {:induction false} CountAppend(a: string, b: string, c: char)
    ensures Count(a + b, c) == Count(a, c) + Count(b, c)
  {
    if b == [] {
      assert a + b == a;
    } else {
      assert (a + b)[..|a + b| - 1] == a + b[..|b| - 1];
      CountAppend(a, b[..|b| - 1], c);
    }
  }

  /** A first occurrence is what `find` reports. */
  lemma FindFirst(s: string, p: string, i: int)
    requires OccursAt(s, p, i)
    requires forall j :: 0 <= j < i ==> !OccursAt(s, p, j)
    ensures Find(s, p) == i
  {
  }

  /** `find` reports -1 exactly when there is no occurrence. */
  lemma FindAbsent(s: string, p: string)
    requires forall j :: 0 <= j ==> !OccursAt(s, p, j)
    ensures Find(s, p) == -1
  {
  }

  /** A one-character pattern occurs where that character is. */
  lemma OccursAtChar(s: string, c: char, i: int)
    ensures OccursAt(s, [c], i) <==> 0 <= i < |s| && s[i] == c
  {
    if 0 <= i < |s| {
      assert s[i..i + 1] == [s[i]];
    }
  }

  /** A string with both ends non-whitespace is already stripped. */
  lemma StripTrimmed(s: string)
    requires s == [] || (!IsWhitespace(s[0]) && !IsWhitespace(s[|s| - 1]))
    ensures Strip(s) == s
  {
  }

  /** Deleting whitespace from whitespace leaves nothing. */
  lemma {:induction false} RemoveWhitespaceOfBlank(w: string)
    requires AllWhitespace(w)
    ensures RemoveWhitespace(w) == []
  {
    if w != [] {
      RemoveWhitespaceOfBlank(w[..|w| - 1]);
    }
  }

  /** A string is its leading whitespace, its stripped text, and its trailing whitespace. */
  lemma StripSplit(s: string) returns (pre: string, post: string)
    ensures s == pre + Strip(s) + post
    ensures AllWhitespace(pre) && AllWhitespace(post)
  {
    var i, j := StripRange(s);
    pre, post := s[..i], s[j..];
    assert s == s[..i] + s[i..j] + s[j..];
  }

  /** Stripping first does not change which characters survive deleting all whitespace. */
  lemma RemoveWhitespaceStrip(s: string)
    ensures RemoveWhitespace(Strip(s)) == RemoveWhitespace(s)
  {
    var pre, post := StripSplit(s);
    RemoveWhitespaceAppend(pre + Strip(s), post);
    RemoveWhitespaceAppend(pre, Strip(s));
    RemoveWhitespaceOfBlank(pre);
    RemoveWhitespaceOfBlank(post);
  }

  /** Stripping does not change how often a non-whitespace character occurs. */
  lemma CountStrip(s: string, c: char)
    requires !IsWhitespace(c)
    ensures Count(Strip(s), c) == Count(s, c)
  {
    var pre, post := StripSplit(s);
    CountAppend(pre + Strip(s), post, c);
    CountAppend(pre, Strip(s), c);
    CountOfBlank(pre, c);
    CountOfBlank(post, c);
  }

  /** A non-whitespace character does not occur in whitespace. */
  lemma {:induction false} CountOfBlank(w: string, c: char)
    requires AllWhitespace(w) && !IsWhitespace(c)
    ensures Count(w, c) == 0
  {
    if w != [] {
      CountOfBlank(w[..|w| - 1], c);
    }
  }

  /** Splitting a string free of the separator gives the string itself. */
  lemma {:induction false} SplitOnFree(a: string, c: char)
    requires c !in a
    ensures SplitOn(a, c) == [a]
  {
    if a != [] {
      SplitOnFree(a[1..], c);
      assert [a[0]] + a[1..] == a;
    }
  }

  /** The text before the first separator is the first part; the rest is split on. */
  lemma {:induction false} SplitOnAfter(a: string, b: string, c: char)
    requires c !in a
    ensures SplitOn(a + [c] + b, c) == [a] + SplitOn(b, c)
  {
    var s := a + [c] + b;
    if a == [] {
      assert s[1..] == b;
    } else {
      assert s[1..] == a[1..] + [c] + b;
      SplitOnAfter(a[1..], b, c);
      assert [a[0]] + a[1..] == a;
    }
  }
}
