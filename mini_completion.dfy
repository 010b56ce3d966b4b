/** The modelled part of util/miniCompleter.py: the regex getSubsequenceRegex
    builds from an abbreviation, one piece per character joined by the lazy
    `.*?`, and the ordering of found abbreviation records by their start. */
module MiniCompletion {
  import opened Wrappers
  import opened Text

  // ---------------------------------------------------------------------
  // getSubsequenceRegex

  /** The regex piece for one character: an upper-case X stands for a camel
      or a snake word start `(X|_x)`, a lower-case x for either case `[Xx]`,
      and anything else for itself. */
  function Piece(x: char): (r: string)
    ensures IsUpper(x) ==> |r| == 6
    ensures IsLower(x) ==> |r| == 4
    ensures !IsAlpha(x) ==> r == [x]
  {
    if IsUpper(x) then "(" + [x] + "|_" + [ToLower(x)] + ")"
    else if IsAlpha(x) then "[" + [ToUpper(x)] + [x] + "]"
    else [x]
  }

  function Pieces(s: string): (r: seq<string>)
    ensures |r| == |s| && forall i :: 0 <= i < |s| ==> r[i] == Piece(s[i])
  {
    seq(|s|, i requires 0 <= i < |s| => Piece(s[i]))
  }

  /** getSubsequenceRegex: the pieces joined by `.*?`; empty for empty input. */
  function SubsequenceRegex(s: string): string {
    if s == "" then "" else Join(".*?", Pieces(s))
  }

  /** Reads back the character of the piece r starts with, and the piece's length. */
  function DecodePiece(r: string): (p: Option<(char, nat)>)
    ensures p.Some? ==> 1 <= p.value.1 <= |r| && r[..p.value.1] == Piece(p.value.0)
  {
    if |r| >= 6 && r[0] == '(' && IsUpper(r[1]) && r[2] == '|' && r[3] == '_' && r[4] == ToLower(r[1]) && r[5] == ')' then
      assert r[..6] == "(" + [r[1]] + "|_" + [ToLower(r[1])] + ")";
      Some((r[1], 6))
    else if |r| >= 4 && r[0] == '[' && IsLower(r[2]) && r[1] == ToUpper(r[2]) && r[3] == ']' then
      assert r[..4] == "[" + [ToUpper(r[2])] + [r[2]] + "]";
      Some((r[2], 4))
    else if |r| >= 1 && !IsAlpha(r[0]) then
      Some((r[0], 1))
    else None
  }

  /** Reads a whole regex back into the abbreviation it was built from. */
  function Decode(r: string): (d: Option<string>)
    ensures d.Some? && r != "" ==> d.value != ""
    decreases |r|
  {
    if r == "" then Some("")
    else match DecodePiece(r)
      case None => None
      case Some((c, n)) =>
        if n == |r| then Some([c])
        else if n + 3 < |r| && r[n..n + 3] == ".*?" then
          match Decode(r[n + 3..])
          case None => None
          case Some(t) => Some([c] + t)
        else None
  }

  /** A piece followed by the end or by a separator reads back as its own character. */
  lemma DecodePieceOf(x: char, rest: string)
    requires rest == [] || rest[0] == '.'
    ensures DecodePiece(Piece(x) + rest) == Some((x, |Piece(x)|))
  {
    var r := Piece(x) + rest;
    if IsUpper(x) {
      assert r[1] == x && r[4] == ToLower(x);
    } else if IsLower(x) {
      assert r[1] == ToUpper(x) && r[2] == x;
    } else {
      assert r[0] == x;
    }
  }

  /** The regex of a non-empty abbreviation is its first piece, then, if
      more follows, the separator and the regex of the rest. */
  lemma RegexCons(s: string)
    requires s != ""
    ensures SubsequenceRegex(s) == Piece(s[0]) + (if |s| == 1 then "" else ".*?" + SubsequenceRegex(s[1..]))
  {
    if |s| >= 2 {
      assert Pieces(s)[1..] == Pieces(s[1..]);
    }
  }

  /** The regex loses nothing: decoding it gives back the abbreviation. */
  lemma {:induction false} DecodeRegex(s: string)
    ensures Decode(SubsequenceRegex(s)) == Some(s)
    decreases |s|
  {
    if |s| == 1 {
      RegexCons(s);
      DecodePieceOf(s[0], "");
      assert Piece(s[0]) + "" == Piece(s[0]);
      assert s == [s[0]];
    } else if |s| > 1 {
      DecodeRegex(s[1..]);
      DecodeRegexStep(s);
    }
  }

  /** One step of DecodeRegex: the first piece, then the decoded rest. */
  lemma DecodeRegexStep(s: string)
    requires |s| > 1 && Decode(SubsequenceRegex(s[1..])) == Some(s[1..])
    ensures Decode(SubsequenceRegex(s)) == Some(s)
  {
    var tail := SubsequenceRegex(s[1..]);
    var p := Piece(s[0]);
    RegexCons(s);
    assert tail != "" by {
      RegexCons(s[1..]);
    }
    DecodePieceOf(s[0], ".*?" + tail);
    DecodeAfterPiece(p + (".*?" + tail), p, tail, s[0], s[1..]);
    assert [s[0]] + s[1..] == s;
  }

  /** A regex made of a piece, the separator and a tail that decodes to t decodes to the piece's character before t. */
  lemma DecodeAfterPiece(r: string, p: string, tail: string, c: char, t: string)
    requires r == p + (".*?" + tail) && tail != ""
    requires DecodePiece(r) == Some((c, |p|)) && Decode(tail) == Some(t)
    ensures Decode(r) == Some([c] + t)
  {
    SeparatorAt(p, tail);
    DecodeStep(r, |p|, c, t);
  }

  /** Where the separator and the tail sit in p + ".*?" + tail. */
  lemma SeparatorAt(p: string, tail: string)
    ensures var r := p + (".*?" + tail);
            r[|p|..|p| + 3] == ".*?" && r[|p| + 3..] == tail
  {
  }

  /** A piece of length n, the separator, and a rest that decodes to t. */
  lemma DecodeStep(r: string, n: nat, c: char, t: string)
    requires n + 3 < |r| && r[n..n + 3] == ".*?"
    requires DecodePiece(r) == Some((c, n)) && Decode(r[n + 3..]) == Some(t)
    ensures Decode(r) == Some([c] + t)
  {
    assert r != "" && n != |r|;
  }

  /** ... and decoding accepts only regexes built this way. */
  lemma {:induction false} DecodeOnlyRegexes(r: string, s: string)
    requires Decode(r) == Some(s)
    ensures r == SubsequenceRegex(s)
    decreases |r|
  {
    if r != "" {
      var (c, n) := DecodePiece(r).value;
      if n == |r| {
        assert s == [c];
        RegexCons(s);
        assert r == r[..n] == Piece(c);
      } else {
        var rest := r[n + 3..];
        var t := Decode(rest).value;
        DecodeOnlyRegexes(rest, t);
        DecodeCons(r, c, n, t, s);
      }
    }
  }

  lemma DecodeCons(r: string, c: char, n: nat, t: string, s: string)
    requires n + 3 < |r| && r[..n] == Piece(c) && r[n..n + 3] == ".*?"
    requires t != "" && r[n + 3..] == SubsequenceRegex(t)
    requires s == [c] + t
    ensures r == SubsequenceRegex(s)
  {
    RegexCons(s);
    assert s[0] == c && s[1..] == t;
    assert r == r[..n] + r[n..n + 3] + r[n + 3..];
  }

  /** One piece per character in order, and a separator between neighbours:
      'abc' becomes `[Aa].*?[Bb].*?[Cc]`. */
  lemma RegexPieces(s: string, k: nat)
    requires k < |s|
    ensures var o := JoinOffset(".*?", Pieces(s), k);
            o + |Piece(s[k])| <= |SubsequenceRegex(s)| && SubsequenceRegex(s)[o..o + |Piece(s[k])|] == Piece(s[k])
    ensures |s| > 0 ==> |SubsequenceRegex(s)| == JoinOffset(".*?", Pieces(s), |s| - 1) + |Piece(s[|s| - 1])|
  {
    var ps := Pieces(s);
    assert SubsequenceRegex(s) == Join(".*?", ps);
    assert ps[k] == Piece(s[k]) && ps[|s| - 1] == Piece(s[|s| - 1]);
    JoinSlice(".*?", ps, k);
    JoinLength(".*?", ps);
  }

  // ---------------------------------------------------------------------
  // Ordering found abbreviations

  /** A found abbreviation: the matched text, its substitution, and where it lies. */
  datatype AbbrRecord = AbbrRecord(text: string, substitution: string, start: int, end: int)

  predicate SortedByStart(rs: seq<AbbrRecord>) {
    forall i, j :: 0 <= i < j < |rs| ==> rs[i].start <= rs[j].start
  }

  /** Puts r after every record that does not start later than it. */
  function Insert(r: AbbrRecord, rs: seq<AbbrRecord>): seq<AbbrRecord>
    decreases |rs|
  {
    if rs == [] then [r]
    else if r.start < rs[0].start then [r] + rs
    else [rs[0]] + Insert(r, rs[1..])
  }

  lemma {:induction false} InsertPermutes(r: AbbrRecord, rs: seq<AbbrRecord>)
    ensures multiset(Insert(r, rs)) == multiset(rs) + multiset{r}
    decreases |rs|
  {
    if rs != [] && r.start >= rs[0].start {
      InsertPermutes(r, rs[1..]);
      assert rs == [rs[0]] + rs[1..];
    }
  }

  lemma {:induction false} InsertSorted(r: AbbrRecord, rs: seq<AbbrRecord>)
    requires SortedByStart(rs)
    ensures SortedByStart(Insert(r, rs))
    decreases |rs|
  {
    if rs != [] && r.start >= rs[0].start {
      var tail := Insert(r, rs[1..]);
      InsertSorted(r, rs[1..]);
      InsertPermutes(r, rs[1..]);
      forall x | x in tail ensures rs[0].start <= x.start {
        assert x in multiset(tail);
        if x != r {
          assert x in multiset(rs[1..]);
        }
      }
    }
  }

  /** sorted(abbrList, key=start): a stable sort by start position. */
  function SortByStart(rs: seq<AbbrRecord>): seq<AbbrRecord>
    decreases |rs|
  {
    if rs == [] then []
    else Insert(rs[|rs| - 1], SortByStart(rs[..|rs| - 1]))
  }

  /** The result is ordered by start and holds exactly the records given. */
  lemma {:induction false} SortSortsAndPermutes(rs: seq<AbbrRecord>)
    ensures SortedByStart(SortByStart(rs)) && multiset(SortByStart(rs)) == multiset(rs)
    decreases |rs|
  {
    if rs != [] {
      var init := rs[..|rs| - 1];
      assert rs == init + [rs[|rs| - 1]];
      SortSortsAndPermutes(init);
      InsertSorted(rs[|rs| - 1], SortByStart(init));
      InsertPermutes(rs[|rs| - 1], SortByStart(init));
    }
  }

  /** The records starting at k, in order. */
  function StartingAt(rs: seq<AbbrRecord>, k: int): seq<AbbrRecord>
    decreases |rs|
  {
    if rs == [] then []
    else (if rs[0].start == k then [rs[0]] else []) + StartingAt(rs[1..], k)
  }

  lemma {:induction false} StartingAtAppend(a: seq<AbbrRecord>, b: seq<AbbrRecord>, k: int)
    ensures StartingAt(a + b, k) == StartingAt(a, k) + StartingAt(b, k)
    decreases |a|
  {
    if a == [] {
      assert a + b == b;
    } else {
      var head := if a[0].start == k then [a[0]] else [];
      assert (a + b)[0] == a[0];
      assert (a + b)[1..] == a[1..] + b;
      StartingAtAppend(a[1..], b, k);
      calc {
        StartingAt(a + b, k);
        head + StartingAt(a[1..] + b, k);
        head + (StartingAt(a[1..], k) + StartingAt(b, k));
        (head + StartingAt(a[1..], k)) + StartingAt(b, k);
        StartingAt(a, k) + StartingAt(b, k);
      }
    }
  }

  lemma {:induction false} StartingAtNone(rs: seq<AbbrRecord>, k: int)
    requires forall x :: x in rs ==> x.start > k
    ensures StartingAt(rs, k) == []
    decreases |rs|
  {
    if rs != [] {
      assert rs[0] in rs;
      assert forall x :: x in rs[1..] ==> x in rs;
      StartingAtNone(rs[1..], k);
    }
  }

  /** No record of a sorted list starts before its first record. */
  lemma SortedNoneBefore(rs: seq<AbbrRecord>, k: int)
    requires SortedByStart(rs) && rs != [] && k < rs[0].start
    ensures StartingAt(rs, k) == []
  {
    forall x | x in rs ensures x.start > k {
      var i :| 0 <= i < |rs| && rs[i] == x;
      assert rs[0].start <= rs[i].start;
    }
    StartingAtNone(rs, k);
  }

  lemma {:induction false} InsertStable(r: AbbrRecord, rs: seq<AbbrRecord>, k: int)
    requires SortedByStart(rs)
    ensures StartingAt(Insert(r, rs), k) == StartingAt(rs, k) + (if r.start == k then [r] else [])
    decreases |rs|
  {
    if rs == [] {
    } else if r.start < rs[0].start {
      assert Insert(r, rs) == [r] + rs;
      assert ([r] + rs)[0] == r && ([r] + rs)[1..] == rs;
      if r.start == k {
        SortedNoneBefore(rs, k);
      }
    } else {
      var tail := Insert(r, rs[1..]);
      assert Insert(r, rs) == [rs[0]] + tail;
      assert ([rs[0]] + tail)[0] == rs[0] && ([rs[0]] + tail)[1..] == tail;
      InsertStable(r, rs[1..], k);
    }
  }

  /** The sort is stable: records with the same start keep their order. */
  lemma {:induction false} SortStable(rs: seq<AbbrRecord>, k: int)
    ensures StartingAt(SortByStart(rs), k) == StartingAt(rs, k)
    decreases |rs|
  {
    if rs != [] {
      var init := rs[..|rs| - 1];
      var last := rs[|rs| - 1];
      assert rs == init + [last];
      SortStable(init, k);
      SortSortsAndPermutes(init);
      InsertStable(last, SortByStart(init), k);
      StartingAtAppend(init, [last], k);
    }
  }
}
