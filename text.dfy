/** String helpers shared by the modules: ASCII case mapping, the Python
    string methods the source relies on (startswith, endswith, `in`,
    partition, rpartition, lstrip, rstrip, join, ljust) and character counts. */
module Text {

  predicate IsUpper(c: char) { 'A' <= c <= 'Z' }

  predicate IsLower(c: char) { 'a' <= c <= 'z' }

  predicate IsAlpha(c: char) { IsUpper(c) || IsLower(c) }

  function ToLower(c: char): (r: char)
    ensures IsUpper(c) ==> IsLower(r) && r as int == c as int + 32
    ensures !IsUpper(c) ==> r == c
  {
    if IsUpper(c) then (c as int + 32) as char else c
  }

  function ToUpper(c: char): (r: char)
    ensures IsLower(c) ==> IsUpper(r) && ToLower(r) == c
    ensures !IsLower(c) ==> r == c
  {
    if IsLower(c) then (c as int - 32) as char else c
  }

  /** str.lower() restricted to ASCII letters. */
  function Lower(s: string): (r: string)
    ensures |r| == |s|
    ensures forall i :: 0 <= i < |s| ==> r[i] == ToLower(s[i])
  {
    seq(|s|, i requires 0 <= i < |s| => ToLower(s[i]))
  }

  predicate StartsWith(s: string, prefix: string) {
    |prefix| <= |s| && s[..|prefix|] == prefix
  }

  predicate EndsWith(s: string, suffix: string) {
    |suffix| <= |s| && s[|s| - |suffix|..] == suffix
  }

  /** Python's `sub in s`. */
  predicate Contains(s: string, sub: string)
    decreases |s|
  {
    StartsWith(s, sub) || (|s| > 0 && Contains(s[1..], sub))
  }

  lemma {:induction false} ContainsAt(s: string, sub: string, i: nat)
    requires i + |sub| <= |s| && s[i..i + |sub|] == sub
    ensures Contains(s, sub)
    decreases i
  {
    if i > 0 {
      assert s[1..][i - 1..i - 1 + |sub|] == s[i..i + |sub|];
      ContainsAt(s[1..], sub, i - 1);
    } else {
      assert s[..|sub|] == sub;
    }
  }

  lemma {:induction false} ContainsFound(s: string, sub: string) returns (i: nat)
    requires Contains(s, sub)
    ensures i + |sub| <= |s| && s[i..i + |sub|] == sub
    decreases |s|
  {
    if StartsWith(s, sub) {
      i := 0;
    } else {
      var j := ContainsFound(s[1..], sub);
      assert s[1..][j..j + |sub|] == s[j + 1..j + 1 + |sub|];
      i := j + 1;
    }
  }

  lemma NotStartsWith(s: string, prefix: string)
    requires |prefix| > 0 && |s| > 0 && s[0] != prefix[0]
    ensures !StartsWith(s, prefix)
  {
  }

  /** A text in which the first two characters of sub never appear side by side does not contain sub. */
  lemma NotContainsPair(s: string, sub: string)
    requires |sub| >= 2
    requires forall i :: 0 <= i < |s| - 1 ==> !(s[i] == sub[0] && s[i + 1] == sub[1])
    ensures !Contains(s, sub)
  {
    if Contains(s, sub) {
      var i := ContainsFound(s, sub);
    }
  }

  /** A text that contains sub contains its first character. */
  lemma ContainsFirst(s: string, sub: string)
    requires |sub| > 0 && Contains(s, sub)
    ensures sub[0] in s
  {
    var i := ContainsFound(s, sub);
    assert s[i..i + |sub|][0] == s[i];
  }

  /** A text without the first character of sub does not contain sub. */
  lemma NotContainsFirst(s: string, sub: string)
    requires |sub| > 0 && sub[0] !in s
    ensures !Contains(s, sub)
  {
    if Contains(s, sub) {
      ContainsFirst(s, sub);
    }
  }

  /** The head of s.partition(c): the text before the first c. */
  function BeforeFirst(s: string, c: char): (r: string)
    ensures StartsWith(s, r) && c !in r
    ensures |r| < |s| ==> s[|r|] == c
    ensures c !in s ==> r == s
  {
    if |s| == 0 || s[0] == c then "" else [s[0]] + BeforeFirst(s[1..], c)
  }

  /** The tail of s.partition(c): the text after the first c, or "". */
  function AfterFirst(s: string, c: char): (r: string)
    ensures c !in s ==> r == ""
  {
    if |s| == 0 then ""
    else if s[0] == c then s[1..]
    else AfterFirst(s[1..], c)
  }

  /** The head, the separator and the tail of a partition rebuild the text. */
  lemma {:induction false} PartitionRejoins(s: string, c: char)
    requires c in s
    ensures s == BeforeFirst(s, c) + [c] + AfterFirst(s, c)
    decreases |s|
  {
    if s[0] != c {
      var t := s[1..];
      assert s == [s[0]] + t;
      assert c in t;
      PartitionRejoins(t, c);
    }
  }

  /** The tail of s.rpartition(c): the text after the last c. */
  function AfterLast(s: string, c: char): (r: string)
    ensures EndsWith(s, r) && c !in r
    ensures |r| < |s| ==> s[|s| - |r| - 1] == c
    ensures c !in s ==> r == s
  {
    if |s| == 0 || s[|s| - 1] == c then "" else AfterLast(s[..|s| - 1], c) + [s[|s| - 1]]
  }

  /** s.lstrip(chars): drops every leading character that occurs in chars. */
  function LStrip(s: string, chars: string): (r: string)
    ensures EndsWith(s, r)
    ensures |r| > 0 ==> r[0] !in chars
    ensures forall i :: 0 <= i < |s| - |r| ==> s[i] in chars
  {
    if |s| > 0 && s[0] in chars then LStrip(s[1..], chars) else s
  }

  /** s.rstrip(c) for a single character c. */
  function RStrip(s: string, c: char): (r: string)
    ensures StartsWith(s, r)
    ensures |r| > 0 ==> r[|r| - 1] != c
    ensures forall i :: |r| <= i < |s| ==> s[i] == c
  {
    if |s| > 0 && s[|s| - 1] == c then RStrip(s[..|s| - 1], c) else s
  }

  /** sep.join(parts). */
  function Join(sep: string, parts: seq<string>): string
  {
    if |parts| == 0 then ""
    else if |parts| == 1 then parts[0]
    else parts[0] + sep + Join(sep, parts[1..])
  }

  /** Where parts[k] begins inside Join(sep, parts). */
  function JoinOffset(sep: string, parts: seq<string>, k: nat): nat
    requires k <= |parts|
  {
    if k == 0 then 0 else JoinOffset(sep, parts, k - 1) + |parts[k - 1]| + |sep|
  }

  lemma {:induction false} JoinOffsetDrop(sep: string, parts: seq<string>, k: nat)
    requires 0 < k <= |parts|
    ensures JoinOffset(sep, parts, k) == |parts[0]| + |sep| + JoinOffset(sep, parts[1..], k - 1)
  {
    if k > 1 {
      JoinOffsetDrop(sep, parts, k - 1);
    }
  }

  /** A slice of the second half of a concatenation, seen from the whole. */
  lemma SliceAfterPrefix(a: string, b: string, o: nat, m: nat)
    requires o + m <= |b|
    ensures (a + b)[|a| + o..|a| + o + m] == b[o..o + m]
  {
  }

  /** Every part appears, unaltered, at its offset in the joined string. */
  lemma {:induction false} JoinSlice(sep: string, parts: seq<string>, k: nat)
    requires k < |parts|
    ensures JoinOffset(sep, parts, k) + |parts[k]| <= |Join(sep, parts)|
    ensures Join(sep, parts)[JoinOffset(sep, parts, k)..JoinOffset(sep, parts, k) + |parts[k]|] == parts[k]
  {
    if |parts| == 1 {
    } else if k == 0 {
      assert Join(sep, parts) == parts[0] + (sep + Join(sep, parts[1..]));
    } else {
      JoinSlice(sep, parts[1..], k - 1);
      JoinOffsetDrop(sep, parts, k);
      var rest := Join(sep, parts[1..]);
      assert Join(sep, parts) == (parts[0] + sep) + rest;
      assert parts[1..][k - 1] == parts[k];
      SliceAfterPrefix(parts[0] + sep, rest, JoinOffset(sep, parts[1..], k - 1), |parts[k]|);
    }
  }

  /** A left-justified part appears in the joined text as its value followed by its padding. */
  lemma PaddedPartInJoin(sep: string, parts: seq<string>, k: nat, s: string, w: int)
    requires k < |parts| && parts[k] == LJust(s, w)
    ensures JoinOffset(sep, parts, k) + |parts[k]| <= |Join(sep, parts)|
    ensures var o := JoinOffset(sep, parts, k);
            Join(sep, parts)[o..o + |s|] == s
    ensures var o := JoinOffset(sep, parts, k);
            forall i :: o + |s| <= i < o + w ==> Join(sep, parts)[i] == ' '
  {
    JoinSlice(sep, parts, k);
    var o := JoinOffset(sep, parts, k);
    var line := Join(sep, parts);
    var cell := parts[k];
    assert line[o..o + |cell|] == cell;
    assert cell[..|s|] == s;
    assert line[o..o + |s|] == line[o..o + |cell|][..|s|];
    forall i | o + |s| <= i < o + w
      ensures line[i] == ' '
    {
      assert line[o..o + |cell|][i - o] == line[i];
    }
  }

  /** The length of Join(sep, parts): every part plus one separator between neighbours. */
  lemma {:induction false} JoinLength(sep: string, parts: seq<string>)
    requires |parts| > 0
    ensures |Join(sep, parts)| == JoinOffset(sep, parts, |parts| - 1) + |parts[|parts| - 1]|
  {
    if |parts| > 1 {
      JoinLength(sep, parts[1..]);
      JoinOffsetDrop(sep, parts, |parts| - 1);
    }
  }

  function Spaces(n: nat): (r: string)
    ensures |r| == n && forall i :: 0 <= i < n ==> r[i] == ' '
  {
    seq(n, _ => ' ')
  }

  /** The "%-Ns" conversion: s left-justified in a field of at least w
      characters; a longer s is kept whole. */
  function LJust(s: string, w: int): (r: string)
    ensures StartsWith(r, s)
    ensures |r| == if w > |s| then w else |s|
    ensures forall i :: |s| <= i < |r| ==> r[i] == ' '
  {
    if w > |s| then s + Spaces(w - |s|) else s
  }

  /** The number of occurrences of c in s. */
  function Count(s: string, c: char): nat
  {
    if |s| == 0 then 0 else (if s[0] == c then 1 else 0) + Count(s[1..], c)
  }

  lemma {:induction false} CountConcat(a: string, b: string, c: char)
    ensures Count(a + b, c) == Count(a, c) + Count(b, c)
  {
    if |a| > 0 {
      assert (a + b)[1..] == a[1..] + b;
      CountConcat(a[1..], b, c);
    } else {
      assert a + b == b;
    }
  }

  lemma {:induction false} CountAbsent(s: string, c: char)
    requires c !in s
    ensures Count(s, c) == 0
  {
    if |s| > 0 {
      CountAbsent(s[1..], c);
    }
  }
}
