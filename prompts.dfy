/** The prompt-template parser of src/prompts.py: a template such as
    `${u:yBI}@${h} ` is split on `${x}` and `${x:cFF}` markers into literal
    text and attribute markers, and turned into an ordered list of styled
    segments framed by the fixed MINI prefix and the prompt symbol, plus a
    style table. */
module Prompts {
  import opened Wrappers
  import opened Text

  /** One (style class, text) pair of the prompt. */
  datatype Segment = Segment(styleClass: string, text: string)

  datatype Prompt = Prompt(segments: seq<Segment>, styles: map<string, string>)

  /** Why stringToPrompt gave up, with the offending piece or letter. */
  datatype PromptError =
    | ValueSyntax(word: string)
    | AttributeName(letter: char)
    | Color(letter: char)
    | Feature(letter: char)

  /** The settings the attributes read, and whether the host is Windows. */
  datatype PromptEnvironment = PromptEnvironment(
    promptSymbol: string,
    user: string,
    host: string,
    database: string,
    table: string,
    isWindows: bool)

  /** The unchangeable styles every prompt starts with. */
  function StylePrefix(isWindows: bool): map<string, string> {
    map["" := "white bold",
        "sep" := "white",
        "symbol" := if isWindows then "orange bold" else "yellowgreen bold",
        "program" := "yellow bold"]
  }

  /** The unchangeable `----<[.MINI.]>----` head of every prompt. */
  const PromptPrefix: seq<Segment> :=
    [Segment("class:sep", "----<["), Segment("class:program", ".MINI."), Segment("class:sep", "]>----")]

  /** Python's `s or fallback` on strings. */
  function OrElse(s: string, fallback: string): string {
    if s != "" then s else fallback
  }

  /** The attribute a marker letter names: its style name and its value. */
  function Attribute(env: PromptEnvironment, letter: char): (r: Option<(string, string)>)
    ensures r.Some? ==> r.value.0 in {"prompt", "user", "host", "db", "table"}
  {
    match letter
    case 'p' => Some(("prompt", env.promptSymbol))
    case 'u' => Some(("user", OrElse(env.user, "<unknown>")))
    case 'h' => Some(("host", OrElse(env.host, "<unknown>")))
    case 'd' => Some(("db", OrElse(env.database, "<none>")))
    case 't' => Some(("table", OrElse(env.table, "<none>")))
    case _ => None
  }

  const Colors: map<char, string> :=
    map['w' := "white", 'b' := "blue", 'p' := "pink",
        'g' := "green", 'n' := "brown", 'r' := "red",
        'y' := "yellow", 'o' := "orange", 'k' := "black",
        'a' := "gray"]

  const Features: map<char, string> := map['B' := "bold", 'U' := "underline", 'I' := "italic"]

  // ---------------------------------------------------------------------
  // Splitting on markers

  /** What the group of `\${(.|.:.[A-Z]*)}` can capture: one character, or a
      character, a colon, a character and upper-case letters (`.` is any
      character but a newline). */
  predicate MarkerText(w: string) {
    || (|w| == 1 && w[0] != '\n')
    || (|w| >= 3 && w[0] != '\n' && w[1] == ':' && w[2] != '\n'
        && forall k :: 3 <= k < |w| ==> IsUpper(w[k]))
  }

  /** The length of the longest run of upper-case letters s starts with. */
  function UpperRun(s: string): (n: nat)
    ensures n <= |s| && forall k :: 0 <= k < n ==> IsUpper(s[k])
    ensures n < |s| ==> !IsUpper(s[n])
  {
    if s != [] && IsUpper(s[0]) then 1 + UpperRun(s[1..]) else 0
  }

  /** The length of the marker s starts with, if it starts with one. */
  function MarkerLength(s: string): (r: Option<nat>)
    ensures r.Some? ==> 4 <= r.value <= |s| && s[..2] == "${" && s[r.value - 1] == '}'
                        && MarkerText(s[2..r.value - 1])
  {
    if |s| >= 4 && s[0] == '$' && s[1] == '{' && s[2] != '\n' && s[3] == '}' then
      Some(4)
    else if |s| >= 5 && s[0] == '$' && s[1] == '{' && s[2] != '\n' && s[3] == ':' && s[4] != '\n' then
      var n := UpperRun(s[5..]);
      if 5 + n < |s| && s[5 + n] == '}' then
        var w := s[2..5 + n];
        assert forall k :: 3 <= k < |w| ==> w[k] == s[5..][k - 3];
        Some(6 + n)
      else None
    else None
  }

  /** The pieces of re.split on the marker pattern: literal text and marker
      groups alternate, starting and ending with literal text. */
  function Split(s: string): (pieces: seq<string>)
    ensures |pieces| >= 1
    ensures Shaped(pieces)
    decreases |s|
  {
    if s == "" then [""]
    else match MarkerLength(s)
      case Some(n) => ["", s[2..n - 1]] + Split(s[n..])
      case None =>
        var rest := Split(s[1..]);
        [[s[0]] + rest[0]] + rest[1..]
  }

  /** There is one more literal piece than markers: the pieces start and
      end with literal text. */
  lemma {:induction false} SplitAlternates(s: string)
    ensures |Split(s)| % 2 == 1
    decreases |s|
  {
    if s != "" {
      match MarkerLength(s)
      case Some(n) =>
        SplitAlternates(s[n..]);
      case None =>
        SplitAlternates(s[1..]);
    }
  }

  /** Every odd-numbered piece is marker text. */
  predicate Shaped(pieces: seq<string>) {
    forall i :: 0 <= i < |pieces| && i % 2 == 1 ==> MarkerText(pieces[i])
  }

  /** The text the pieces came from: markers wrapped back in `${` and `}`. */
  function Unsplit(pieces: seq<string>): string
    decreases |pieces|
  {
    if pieces == [] then ""
    else if |pieces| == 1 then pieces[0]
    else pieces[0] + "${" + pieces[1] + "}" + Unsplit(pieces[2..])
  }

  lemma {:induction false} UnsplitPrepend(c: string, pieces: seq<string>)
    requires |pieces| >= 1
    ensures Unsplit([c + pieces[0]] + pieces[1..]) == c + Unsplit(pieces)
  {
    var q := [c + pieces[0]] + pieces[1..];
    if |pieces| > 1 {
      assert q[2..] == pieces[2..];
    }
  }

  lemma {:induction false} UnsplitMarker(m: string, rest: seq<string>)
    ensures Unsplit(["", m] + rest) == "${" + m + "}" + Unsplit(rest)
  {
    assert (["", m] + rest)[2..] == rest;
  }

  /** A marker of length n at the head of s, put back around its text. */
  lemma MarkerRejoins(s: string, n: nat)
    requires 4 <= n <= |s| && s[..2] == "${" && s[n - 1] == '}'
    ensures s == "${" + s[2..n - 1] + "}" + s[n..]
  {
    assert s[..n] == s[..2] + s[2..n - 1] + [s[n - 1]];
    assert s == s[..n] + s[n..];
  }

  lemma MarkerRoundTripStep(s: string, n: nat, rest: seq<string>)
    requires 4 <= n <= |s| && s[..2] == "${" && s[n - 1] == '}' && Unsplit(rest) == s[n..]
    ensures Unsplit(["", s[2..n - 1]] + rest) == s
  {
    UnsplitMarker(s[2..n - 1], rest);
    MarkerRejoins(s, n);
  }

  lemma LiteralRoundTripStep(s: string)
    requires s != "" && MarkerLength(s).None? && Unsplit(Split(s[1..])) == s[1..]
    ensures Unsplit(Split(s)) == s
  {
    var rest := Split(s[1..]);
    assert Split(s) == [[s[0]] + rest[0]] + rest[1..];
    UnsplitPrepend([s[0]], rest);
    assert s == [s[0]] + s[1..];
  }

  /** Splitting loses nothing: the pieces put back together are the template. */
  lemma {:induction false} SplitRoundTrip(s: string)
    ensures Unsplit(Split(s)) == s
    decreases |s|
  {
    if s != "" {
      match MarkerLength(s)
      case Some(n) =>
        SplitRoundTrip(s[n..]);
        MarkerRoundTripStep(s, n, Split(s[n..]));
      case None =>
        SplitRoundTrip(s[1..]);
        LiteralRoundTripStep(s);
    }
  }

  /** A marker never holds a further `${`, so the syntax check on marker
      pieces cannot fire. */
  lemma MarkerHasNoMarkerStart(w: string)
    requires MarkerText(w)
    ensures !Contains(w, "${")
  {
    forall i | 0 <= i < |w| - 1
      ensures !(w[i] == "${"[0] && w[i + 1] == "${"[1])
    {
      if i >= 2 {
        assert IsUpper(w[i + 1]);
      }
    }
    NotContainsPair(w, "${");
  }

  // ---------------------------------------------------------------------
  // Styles

  /** The colour name followed by each feature's name, space-separated; the
      first letter that names no feature is the error. */
  function Described(colour: string, letters: string): (r: Result<string, PromptError>)
    ensures r.Err? ==> r.error.Feature?
    decreases |letters|
  {
    if letters == [] then Ok(colour)
    else
      match Described(colour, letters[..|letters| - 1])
      case Err(e) => Err(e)
      case Ok(d) =>
        var w := letters[|letters| - 1];
        if w in Features then Ok(d + " " + Features[w]) else Err(Feature(w))
  }

  lemma {:induction false} DescribedAfterFailure(colour: string, letters: string, k: nat)
    requires k <= |letters| && Described(colour, letters[..k]).Err?
    ensures Described(colour, letters) == Described(colour, letters[..k])
    decreases |letters|
  {
    if k < |letters| {
      assert letters[..|letters| - 1][..k] == letters[..k];
      DescribedAfterFailure(colour, letters[..|letters| - 1], k);
    } else {
      assert letters[..k] == letters;
    }
  }

  /** The features succeed exactly when every letter names one. */
  lemma {:induction false} DescribedOkIff(colour: string, letters: string)
    ensures Described(colour, letters).Ok? <==> forall k :: 0 <= k < |letters| ==> letters[k] in Features
    ensures Described(colour, letters).Err? ==> exists k :: 0 <= k < |letters| && letters[k] !in Features
                                                 && Described(colour, letters).error == Feature(letters[k])
    decreases |letters|
  {
    if letters != [] {
      var init := letters[..|letters| - 1];
      DescribedOkIff(colour, init);
      assert forall k :: 0 <= k < |init| ==> init[k] == letters[k];
    }
  }

  /** What one marker contributes: its style name, its value and its style,
      or the first unknown letter. The attribute letter is checked before the
      colour, and the colour before the features. */
  function MarkerStyle(env: PromptEnvironment, word: string): (r: Result<(string, string, string), PromptError>)
    requires MarkerText(word)
  {
    if Contains(word, "${") then Err(ValueSyntax(word))
    else match Attribute(env, word[0])
      case None => Err(AttributeName(word[0]))
      case Some((attr, value)) =>
        if ':' in word then
          if word[2] in Colors then
            match Described(Colors[word[2]], word[3..])
            case Err(e) => Err(e)
            case Ok(desc) => Ok((attr, value, desc))
          else Err(Color(word[2]))
        else Ok((attr, value, "white"))
  }

  /** `${x}` for a known x is x's attribute in plain white. */
  lemma PlainMarker(env: PromptEnvironment, letter: char)
    requires letter != '\n' && Attribute(env, letter).Some?
    ensures MarkerStyle(env, [letter]) == Ok((Attribute(env, letter).value.0, Attribute(env, letter).value.1, "white"))
  {
    MarkerHasNoMarkerStart([letter]);
  }

  /** An unknown attribute letter is reported first, whatever follows it. */
  lemma UnknownAttribute(env: PromptEnvironment, word: string)
    requires MarkerText(word) && Attribute(env, word[0]).None?
    ensures MarkerStyle(env, word) == Err(AttributeName(word[0]))
  {
    MarkerHasNoMarkerStart(word);
  }

  /** With a known attribute, an unknown colour letter is reported next. */
  lemma UnknownColor(env: PromptEnvironment, word: string)
    requires MarkerText(word) && |word| >= 3 && Attribute(env, word[0]).Some? && word[2] !in Colors
    ensures MarkerStyle(env, word) == Err(Color(word[2]))
  {
    MarkerHasNoMarkerStart(word);
  }

  /** The example of the source's comment: `${u:yBI}` is the user name in
      yellow bold italic. */
  lemma YellowBoldItalicUser(env: PromptEnvironment)
    ensures MarkerStyle(env, "u:yBI") == Ok(("user", OrElse(env.user, "<unknown>"), "yellow bold italic"))
  {
    var w := "u:yBI";
    assert MarkerText(w);
    MarkerHasNoMarkerStart(w);
    assert ':' in w by { assert w[1] == ':'; }
    assert w[0] == 'u' && w[2] == 'y' && w[3..] == "BI";
    assert Attribute(env, 'u') == Some(("user", OrElse(env.user, "<unknown>")));
    assert 'y' in Colors && Colors['y'] == "yellow";
    BoldItalic();
  }

  lemma BoldItalic()
    ensures Described("yellow", "BI") == Ok("yellow bold italic")
  {
    assert "BI"[..|"BI"| - 1] == "B" && "B"[..|"B"| - 1] == "";
    assert Described("yellow", "") == Ok("yellow");
    assert Features['B'] == "bold" && Features['I'] == "italic";
    assert "yellow" + " " + "bold" == "yellow bold";
    assert "yellow bold" + " " + "italic" == "yellow bold italic";
    assert Described("yellow", "B") == Ok("yellow bold");
  }

  // ---------------------------------------------------------------------
  // Building the prompt

  /** One piece's effect: a marker adds its attribute segment and sets its
      style; a non-empty literal adds a `sep` segment; an empty one nothing. */
  function PieceStep(env: PromptEnvironment, p: Prompt, word: string, isAttribute: bool): Result<Prompt, PromptError>
    requires isAttribute ==> MarkerText(word)
  {
    if isAttribute then
      match MarkerStyle(env, word)
      case Err(e) => Err(e)
      case Ok((attr, value, desc)) =>
        Ok(Prompt(p.segments + [Segment("class:" + attr, value)], p.styles[attr := desc]))
    else if word != "" then Ok(p.(segments := p.segments + [Segment("class:sep", word)]))
    else Ok(p)
  }

  /** The prompt built from the first pieces, or the first error. The fixed
      prefix is always the head, and the fixed styles are never overwritten. */
  function Fold(env: PromptEnvironment, pieces: seq<string>): (r: Result<Prompt, PromptError>)
    requires Shaped(pieces)
    ensures r.Ok? ==> |r.value.segments| >= 3 && r.value.segments[..3] == PromptPrefix
    decreases |pieces|
  {
    if pieces == [] then Ok(Prompt(PromptPrefix, StylePrefix(env.isWindows)))
    else
      var i := |pieces| - 1;
      match Fold(env, pieces[..i])
      case Err(e) => Err(e)
      case Ok(p) => PieceStep(env, p, pieces[i], i % 2 == 1)
  }

  /** stringToPrompt's result: the pieces folded, then the prompt symbol. */
  function PromptOf(env: PromptEnvironment, s: string): Result<Prompt, PromptError> {
    match Fold(env, Split(s))
    case Err(e) => Err(e)
    case Ok(p) => Ok(p.(segments := p.segments + [Segment("class:symbol", env.promptSymbol)]))
  }

  lemma {:induction false} FoldAfterFailure(env: PromptEnvironment, pieces: seq<string>, k: nat)
    requires Shaped(pieces) && k <= |pieces| && Fold(env, pieces[..k]).Err?
    ensures Fold(env, pieces) == Fold(env, pieces[..k])
    decreases |pieces|
  {
    if k < |pieces| {
      assert pieces[..|pieces| - 1][..k] == pieces[..k];
      FoldAfterFailure(env, pieces[..|pieces| - 1], k);
    } else {
      assert pieces[..k] == pieces;
    }
  }

  /** The prompt is built exactly when every marker is well formed. */
  lemma {:induction false} FoldOkIff(env: PromptEnvironment, pieces: seq<string>)
    requires Shaped(pieces)
    ensures Fold(env, pieces).Ok? <==> forall i :: 0 <= i < |pieces| && i % 2 == 1 ==> MarkerStyle(env, pieces[i]).Ok?
    decreases |pieces|
  {
    if pieces != [] {
      var init := pieces[..|pieces| - 1];
      FoldOkIff(env, init);
      assert forall i :: 0 <= i < |init| ==> init[i] == pieces[i];
    }
  }

  /** A failure is the error of the first bad marker. */
  lemma {:induction false} FoldStopsAtFirstBadMarker(env: PromptEnvironment, pieces: seq<string>) returns (i: nat)
    requires Shaped(pieces) && Fold(env, pieces).Err?
    ensures i < |pieces| && i % 2 == 1 && MarkerStyle(env, pieces[i]) == Err(Fold(env, pieces).error)
    ensures forall j :: 0 <= j < i && j % 2 == 1 ==> MarkerStyle(env, pieces[j]).Ok?
    decreases |pieces|
  {
    var n := |pieces| - 1;
    var init := pieces[..n];
    if Fold(env, init).Err? {
      i := FoldStopsAtFirstBadMarker(env, init);
      assert init[i] == pieces[i];
      assert forall j :: 0 <= j < i ==> init[j] == pieces[j];
    } else {
      i := n;
      FoldOkIff(env, init);
      assert forall j :: 0 <= j < n ==> init[j] == pieces[j];
    }
  }

  /** The prompt never fails on the syntax check: only unknown letters fail it. */
  lemma NoValueSyntaxError(env: PromptEnvironment, s: string)
    ensures PromptOf(env, s).Err? ==> !PromptOf(env, s).error.ValueSyntax?
  {
    var pieces := Split(s);
    if Fold(env, pieces).Err? {
      var i := FoldStopsAtFirstBadMarker(env, pieces);
      MarkerHasNoMarkerStart(pieces[i]);
    }
  }

  /** A fold never overwrites the fixed styles: a marker's style key is
      prompt, user, host, db or table, none of them a key of the style
      prefix. */
  lemma {:induction false} FoldKeepsStyles(env: PromptEnvironment, pieces: seq<string>)
    requires Shaped(pieces) && Fold(env, pieces).Ok?
    ensures forall k :: k in StylePrefix(env.isWindows) ==>
              k in Fold(env, pieces).value.styles && Fold(env, pieces).value.styles[k] == StylePrefix(env.isWindows)[k]
    decreases |pieces|
  {
    if pieces != [] {
      FoldKeepsStyles(env, pieces[..|pieces| - 1]);
    }
  }

  /** Every prompt opens with the fixed prefix, ends with the prompt symbol
      in the `symbol` style, and keeps the fixed styles. */
  lemma PromptFrame(env: PromptEnvironment, s: string)
    requires PromptOf(env, s).Ok?
    ensures var p := PromptOf(env, s).value;
            && |p.segments| >= 4 && p.segments[..3] == PromptPrefix
            && p.segments[|p.segments| - 1] == Segment("class:symbol", env.promptSymbol)
            && "" in p.styles && p.styles[""] == "white bold"
            && "sep" in p.styles && p.styles["sep"] == "white"
            && "program" in p.styles && p.styles["program"] == "yellow bold"
            && "symbol" in p.styles && p.styles["symbol"] == (if env.isWindows then "orange bold" else "yellowgreen bold")
  {
    var f := Fold(env, Split(s)).value;
    FoldKeepsStyles(env, Split(s));
    assert "" in StylePrefix(env.isWindows) && "sep" in StylePrefix(env.isWindows);
    assert "program" in StylePrefix(env.isWindows) && "symbol" in StylePrefix(env.isWindows);
    assert (f.segments + [Segment("class:symbol", env.promptSymbol)])[..3] == f.segments[..3];
  }

  /** The text of the `sep` segments, in order. */
  function SepText(segments: seq<Segment>): string
    decreases |segments|
  {
    if segments == [] then ""
    else
      var last := segments[|segments| - 1];
      SepText(segments[..|segments| - 1]) + (if last.styleClass == "class:sep" then last.text else "")
  }

  /** The literal pieces (the even-numbered ones), concatenated in order. */
  function Literals(pieces: seq<string>): string
    decreases |pieces|
  {
    if pieces == [] then ""
    else Literals(pieces[..|pieces| - 1]) + (if (|pieces| - 1) % 2 == 0 then pieces[|pieces| - 1] else "")
  }

  lemma {:induction false} SepTextAppend(a: seq<Segment>, b: seq<Segment>)
    ensures SepText(a + b) == SepText(a) + SepText(b)
    decreases |b|
  {
    if b == [] {
      assert a + b == a;
    } else {
      var n := |b| - 1;
      assert (a + b)[..|a + b| - 1] == a + b[..n];
      SepTextAppend(a, b[..n]);
    }
  }

  /** One piece adds its text to the `sep` text if it is literal, and
      nothing if it is a marker. */
  lemma LiteralStep(env: PromptEnvironment, p: Prompt, word: string, isAttribute: bool)
    requires isAttribute ==> MarkerText(word)
    requires |p.segments| >= 3 && PieceStep(env, p, word, isAttribute).Ok?
    ensures var after := PieceStep(env, p, word, isAttribute).value.segments;
            |after| >= 3 && SepText(after[3..]) == SepText(p.segments[3..]) + (if isAttribute then "" else word)
  {
    var before := p.segments;
    var after := PieceStep(env, p, word, isAttribute).value.segments;
    if isAttribute {
      var attr := MarkerStyle(env, word).value.0;
      var seg := Segment("class:" + attr, MarkerStyle(env, word).value.1);
      assert after[3..] == before[3..] + [seg];
      SepTextAppend(before[3..], [seg]);
      assert |seg.styleClass| != |"class:sep"|;
      assert SepText([seg]) == SepText([]) + "";
    } else if word != "" {
      var seg := Segment("class:sep", word);
      assert after[3..] == before[3..] + [seg];
      SepTextAppend(before[3..], [seg]);
      assert SepText([seg]) == SepText([]) + word;
    } else {
      assert after == before;
    }
  }

  /** The literal text of the template survives in order, as the text of
      the `sep` segments after the fixed prefix. */
  lemma {:induction false} LiteralTextKept(env: PromptEnvironment, pieces: seq<string>)
    requires Shaped(pieces) && Fold(env, pieces).Ok?
    ensures var segs := Fold(env, pieces).value.segments; SepText(segs[3..]) == Literals(pieces)
    decreases |pieces|
  {
    if pieces != [] {
      var n := |pieces| - 1;
      var init := pieces[..n];
      LiteralTextKept(env, init);
      LiteralStep(env, Fold(env, init).value, pieces[n], n % 2 == 1);
    }
  }

  /** The handling of one marker piece: the attribute lookup, the colour
      lookup and the loop over the feature letters. */
  method StyleMarker(env: PromptEnvironment, word: string) returns (r: Result<(string, string, string), PromptError>)
    requires MarkerText(word)
    ensures r == MarkerStyle(env, word)
  {
    if Contains(word, "${") {
      return Err(ValueSyntax(word));
    }
    var attribute := Attribute(env, word[0]);
    if attribute.None? {
      return Err(AttributeName(word[0]));
    }
    var (attr, value) := attribute.value;
    var styleDesc: string;
    if ':' in word {
      if word[2] !in Colors {
        return Err(Color(word[2]));
      }
      styleDesc := Colors[word[2]];
      var letters := word[3..];
      var j := 0;
      while j < |letters|
        invariant 0 <= j <= |letters|
        invariant Described(Colors[word[2]], letters[..j]) == Ok(styleDesc)
      {
        var w := letters[j];
        assert letters[..j + 1][..j] == letters[..j];
        if w !in Features {
          DescribedAfterFailure(Colors[word[2]], letters, j + 1);
          return Err(Feature(w));
        }
        styleDesc := styleDesc + " " + Features[w];
        j := j + 1;
      }
      assert letters[..j] == letters;
    } else {
      styleDesc := "white";
    }
    return Ok((attr, value, styleDesc));
  }

  /** Folding one more piece is one PieceStep on the prompt built so far. */
  lemma FoldSnoc(env: PromptEnvironment, pieces: seq<string>, i: nat)
    requires Shaped(pieces) && i < |pieces|
    ensures Shaped(pieces[..i]) && Shaped(pieces[..i + 1])
    ensures Fold(env, pieces[..i]).Ok? ==>
              Fold(env, pieces[..i + 1]) == PieceStep(env, Fold(env, pieces[..i]).value, pieces[i], i % 2 == 1)
  {
    var init := pieces[..i + 1];
    assert init[..i] == pieces[..i];
    assert init[i] == pieces[i];
  }

  /** Markers and literals alternate. */
  lemma ParityFlips(i: nat)
    ensures ((i + 1) % 2 == 1) == !(i % 2 == 1)
  {
  }

  /** A failing step ends the fold with its error. */
  lemma FoldStopsAt(env: PromptEnvironment, pieces: seq<string>, i: nat)
    requires Shaped(pieces) && i < |pieces| && Shaped(pieces[..i]) && Fold(env, pieces[..i]).Ok?
    requires PieceStep(env, Fold(env, pieces[..i]).value, pieces[i], i % 2 == 1).Err?
    ensures Fold(env, pieces) == PieceStep(env, Fold(env, pieces[..i]).value, pieces[i], i % 2 == 1)
  {
    FoldSnoc(env, pieces, i);
    FoldAfterFailure(env, pieces, i + 1);
  }

  /** The body of stringToPrompt's loop for one piece. */
  method AddPiece(env: PromptEnvironment, prompt1: seq<Segment>, styleDict: map<string, string>, word: string, isAttribute: bool)
    returns (r: Result<Prompt, PromptError>)
    requires isAttribute ==> MarkerText(word)
    ensures r == PieceStep(env, Prompt(prompt1, styleDict), word, isAttribute)
  {
    if isAttribute {
      var marker := StyleMarker(env, word);
      if marker.Err? {
        return Err(marker.error);
      }
      var (attr, value, styleDesc) := marker.value;
      return Ok(Prompt(prompt1 + [Segment("class:" + attr, value)], styleDict[attr := styleDesc]));
    } else if word != "" {
      return Ok(Prompt(prompt1 + [Segment("class:sep", word)], styleDict));
    }
    return Ok(Prompt(prompt1, styleDict));
  }

  /** stringToPrompt's loop over the pieces, with the prompt and style
      table it updates. */
  method FoldPieces(env: PromptEnvironment, pieces: seq<string>) returns (r: Result<Prompt, PromptError>)
    requires Shaped(pieces)
    ensures r == Fold(env, pieces)
  {
    var isAttribute := false;
    var prompt1 := PromptPrefix;
    var styleDict := StylePrefix(env.isWindows);
    var i := 0;
    while i < |pieces|
      invariant 0 <= i <= |pieces|
      invariant isAttribute == (i % 2 == 1)
      invariant Fold(env, pieces[..i]) == Ok(Prompt(prompt1, styleDict))
    {
      FoldSnoc(env, pieces, i);
      var step := AddPiece(env, prompt1, styleDict, pieces[i], isAttribute);
      if step.Err? {
        FoldStopsAt(env, pieces, i);
        return step;
      }
      prompt1, styleDict := step.value.segments, step.value.styles;
      ParityFlips(i);
      isAttribute := !isAttribute;
      i := i + 1;
    }
    assert pieces[..i] == pieces;
    return Ok(Prompt(prompt1, styleDict));
  }

  /** stringToPrompt. Splitting the template is re.split's job and is taken
      as the function Split; the walk over the pieces is FoldPieces, after
      which the prompt symbol closes the segment list. */
  method StringToPrompt(env: PromptEnvironment, s: string) returns (r: Result<Prompt, PromptError>)
    ensures r == PromptOf(env, s)
  {
    var built := FoldPieces(env, Split(s));
    if built.Err? {
      return built;
    }
    var prompt1 := built.value.segments + [Segment("class:symbol", env.promptSymbol)];
    return Ok(Prompt(prompt1, built.value.styles));
  }
}
