/** The system-command completer of util/commandCompleter.py: text that
    starts with the command leader is completed either as a command name or
    as an argument of the command already typed; a candidate matches when
    the typed word is an anchored subsequence of it (or, optionally, a
    substring), and each match replaces exactly the typed word. */
module CommandCompletion {
  import opened Wrappers
  import opened Text

  /** The ConnectionString section: its definitionType entry, if present,
      and the entry names of each of its sub-sections. */
  datatype ConnectionStringSection = ConnectionStringSection(
    definitionType: Option<string>,
    subsections: map<string, seq<string>>)

  /** The parts of the settings the completer reads. The Settings section
      (its entry names and its `leader`) and the Aliases section are read
      outside the KeyError handler, so they are present; a section that may
      be missing, which the handler covers, is an Option. */
  datatype CompletionSettings = CompletionSettings(
    leader: string,
    aliases: seq<string>,
    variables: Option<seq<string>>,
    settingNames: seq<string>,
    connectionString: Option<ConnectionStringSection>)

  /** The completer's constructor flags that take part in matching. */
  datatype CompleterOptions = CompleterOptions(ignoreCase: bool, metaDict: map<string, string>, matchMiddle: bool)

  /** A completion: the candidate, where the replacement starts relative to
      the cursor, and its meta text. */
  datatype Completion = Completion(text: string, startPosition: int, displayMeta: string)

  /** The command names of the command list, in order. */
  const CommandNames: seq<string> :=
    ["sq", "quit", "help", "history", "db", "table", "clear", "format",
     "set", "seta", "setabb", "setv", "get", "geta", "getabb", "getv",
     "save", "source", "unset", "unseta", "unsetabb", "unsetv"]

  /** The option lists of the finite-option settings. */
  const SettingOptions: map<string, seq<string>> :=
    map["format" := ["tab", "wrap", "nowrap", "vertical"],
        "endlineProtocol" := ["delimit", "continue"],
        "runMode" := ["query", "run", "both"],
        "editMode" := ["VI", "EMACS"]]

  // ---------------------------------------------------------------------
  // Candidates

  /** The setting names, `definitionType` and the names of the current
      definition type's entries; None where a lookup raises KeyError (no
      ConnectionString section, no definitionType entry, or no sub-section for the definition type). */
  function SettingCandidates(ms: CompletionSettings): Option<seq<string>> {
    match ms.connectionString
    case None => None
    case Some(cs) =>
      match cs.definitionType
      case None => None
      case Some(defType) =>
        if defType in cs.subsections then
          Some(ms.settingNames + ["definitionType"] + cs.subsections[defType])
        else None
  }

  /** The candidates for an argument of cmd; a lookup that raises KeyError
      yields none. */
  function ArgumentCandidates(ms: CompletionSettings, cmd: string): seq<string> {
    if cmd == "geta" || cmd == "unseta" then
      ms.aliases + (if cmd == "geta" then ["*"] else [])
    else if cmd == "getv" || cmd == "unsetv" then
      match ms.variables
      case None => []
      case Some(vs) => vs + (if cmd == "getv" then ["*"] else [])
    else if cmd == "set" || cmd == "get" || cmd == "unset" then
      match SettingCandidates(ms)
      case None => []
      case Some(listed) => listed + (if cmd == "get" then ["*"] else [])
    else if cmd in SettingOptions then SettingOptions[cmd]
    else []
  }

  /** The candidate words and the word being completed, for the text after
      the leader. */
  function Candidates(ms: CompletionSettings, text: string, wordBeforeCursor: string): (seq<string>, string) {
    if ' ' in text then (ArgumentCandidates(ms, BeforeFirst(text, ' ')), wordBeforeCursor)
    else (CommandNames + ms.aliases, text)
  }

  /** The get commands offer `*` as their last candidate; the matching
      unset commands offer the same list without it. A missing section or
      entry makes both offer nothing. */
  lemma StarOnlyForGet(ms: CompletionSettings)
    ensures var geta := ArgumentCandidates(ms, "geta");
            |geta| >= 1 && geta[|geta| - 1] == "*" && ArgumentCandidates(ms, "unseta") == geta[..|geta| - 1]
    ensures var getv := ArgumentCandidates(ms, "getv");
            && (ms.variables.Some? ==>
                  |getv| >= 1 && getv[|getv| - 1] == "*" && ArgumentCandidates(ms, "unsetv") == getv[..|getv| - 1])
            && (ms.variables.None? ==> getv == [] && ArgumentCandidates(ms, "unsetv") == [])
    ensures var get := ArgumentCandidates(ms, "get");
            && (SettingCandidates(ms).Some? ==>
                  |get| >= 1 && get[|get| - 1] == "*" && ArgumentCandidates(ms, "unset") == get[..|get| - 1])
            && (SettingCandidates(ms).None? ==> get == [] && ArgumentCandidates(ms, "unset") == [])
    ensures ArgumentCandidates(ms, "set") == ArgumentCandidates(ms, "unset")
  {
    var geta := ArgumentCandidates(ms, "geta");
    assert geta[..|geta| - 1] == ms.aliases;
    if ms.variables.Some? {
      var getv := ArgumentCandidates(ms, "getv");
      assert getv[..|getv| - 1] == ms.variables.value;
    }
    if SettingCandidates(ms).Some? {
      var get := ArgumentCandidates(ms, "get");
      assert get[..|get| - 1] == SettingCandidates(ms).value;
    }
  }

  /** The setting lookups succeed exactly when the ConnectionString section,
      its definitionType entry and that type's sub-section are present; the candidates then hold `definitionType` between the
      setting names and the definition type's entries. */
  lemma SettingCandidatesIff(ms: CompletionSettings)
    ensures SettingCandidates(ms).Some? <==>
              && ms.connectionString.Some? && ms.connectionString.value.definitionType.Some?
              && ms.connectionString.value.definitionType.value in ms.connectionString.value.subsections
    ensures SettingCandidates(ms).Some? ==>
              var listed := SettingCandidates(ms).value;
              var n := |ms.settingNames|;
              && |listed| > n && listed[..n] == ms.settingNames && listed[n] == "definitionType"
              && listed[n + 1..] == ms.connectionString.value.subsections[ms.connectionString.value.definitionType.value]
  {
  }

  /** Any other command takes its candidates from the option table. */
  lemma OtherCommandCandidates(ms: CompletionSettings, cmd: string)
    requires cmd !in ["geta", "unseta", "getv", "unsetv", "set", "get", "unset"]
    ensures cmd in SettingOptions ==> ArgumentCandidates(ms, cmd) == SettingOptions[cmd]
    ensures cmd !in SettingOptions ==> ArgumentCandidates(ms, cmd) == []
  {
  }

  // ---------------------------------------------------------------------
  // Matching

  /** t can be found in s, in order, the gaps before each character
      holding no newline: the lazy `.*?` between the typed characters. */
  predicate Follows(t: string, s: string)
    decreases |s|
  {
    if t == [] then true
    else if s == [] then false
    else (s[0] == t[0] && Follows(t[1..], s[1..])) || (s[0] != '\n' && Follows(t, s[1..]))
  }

  /** re.search('^' + '.*?'.join(typed), word): the word starts with the
      first typed character and the rest follow in order. */
  predicate AnchoredMatch(typed: string, word: string) {
    typed == [] || (|word| > 0 && word[0] == typed[0] && Follows(typed[1..], word[1..]))
  }

  /** The reference notion: positions of word, increasing, spell typed. */
  predicate Embeds(typed: string, word: string, idx: seq<nat>) {
    && |idx| == |typed|
    && (forall k :: 0 <= k < |idx| ==> idx[k] < |word| && word[idx[k]] == typed[k])
    && (forall k :: 0 < k < |idx| ==> idx[k - 1] < idx[k])
  }

  ghost predicate IsSubsequence(typed: string, word: string) {
    exists idx :: Embeds(typed, word, idx)
  }

  function Shift(idx: seq<nat>, d: nat): (r: seq<nat>)
    ensures |r| == |idx| && forall k :: 0 <= k < |idx| ==> r[k] == idx[k] + d
  {
    seq(|idx|, k requires 0 <= k < |idx| => idx[k] + d)
  }

  function Unshift(idx: seq<nat>): (r: seq<nat>)
    requires forall k :: 0 <= k < |idx| ==> idx[k] >= 1
    ensures |r| == |idx| && forall k :: 0 <= k < |idx| ==> r[k] == idx[k] - 1
  {
    seq(|idx|, k requires 0 <= k < |idx| => idx[k] - 1)
  }

  lemma {:induction false} FollowsEmbeds(t: string, s: string) returns (idx: seq<nat>)
    requires Follows(t, s)
    ensures Embeds(t, s, idx)
    decreases |s|
  {
    if t == [] {
      idx := [];
    } else if s[0] == t[0] && Follows(t[1..], s[1..]) {
      var rest := FollowsEmbeds(t[1..], s[1..]);
      idx := [0] + Shift(rest, 1);
    } else {
      var rest := FollowsEmbeds(t, s[1..]);
      idx := Shift(rest, 1);
    }
  }

  lemma {:induction false} EmbedsFollows(t: string, s: string, idx: seq<nat>)
    requires Embeds(t, s, idx) && '\n' !in s
    ensures Follows(t, s)
    decreases |s|
  {
    if t != [] {
      if idx[0] == 0 {
        var rest := idx[1..];
        assert forall k :: 0 <= k < |rest| ==> rest[k] >= 1 by {
          forall k | 0 <= k < |rest| ensures rest[k] >= 1 {
            MonotoneFrom(idx, 0, k + 1);
          }
        }
        EmbedsFollows(t[1..], s[1..], Unshift(rest));
      } else {
        assert forall k :: 0 <= k < |idx| ==> idx[k] >= 1 by {
          forall k | 0 <= k < |idx| ensures idx[k] >= 1 {
            MonotoneFrom(idx, 0, k);
          }
        }
        assert s[0] != '\n';
        EmbedsFollows(t, s[1..], Unshift(idx));
      }
    }
  }

  lemma {:induction false} MonotoneFrom(idx: seq<nat>, i: nat, j: nat)
    requires i <= j < |idx| && forall k :: 0 < k < |idx| ==> idx[k - 1] < idx[k]
    ensures idx[i] + (j - i) <= idx[j]
    decreases j - i
  {
    if i < j {
      MonotoneFrom(idx, i, j - 1);
    }
  }

  lemma AnchoredMatchSubsequence(typed: string, word: string)
    requires typed != [] && |word| > 0 && word[0] == typed[0] && Follows(typed[1..], word[1..])
    ensures IsSubsequence(typed, word)
  {
    var rest := FollowsEmbeds(typed[1..], word[1..]);
    var idx := [0] + Shift(rest, 1);
    assert Embeds(typed, word, idx);
  }

  lemma SubsequenceAnchoredMatch(typed: string, word: string)
    requires '\n' !in word
    requires typed != [] && |word| > 0 && word[0] == typed[0] && IsSubsequence(typed, word)
    ensures Follows(typed[1..], word[1..])
  {
    var idx :| Embeds(typed, word, idx);
    var rest := idx[1..];
    assert forall k :: 0 <= k < |rest| ==> rest[k] >= 1 by {
      forall k | 0 <= k < |rest| ensures rest[k] >= 1 {
        MonotoneFrom(idx, 0, k + 1);
      }
    }
    var shifted := Unshift(rest);
    assert Embeds(typed[1..], word[1..], shifted) by {
      forall k | 0 <= k < |shifted| ensures shifted[k] < |word[1..]| && word[1..][shifted[k]] == typed[1..][k] {
        assert shifted[k] + 1 == idx[k + 1];
      }
    }
    EmbedsFollows(typed[1..], word[1..], shifted);
  }

  /** On newline-free words the anchored match is exactly: nothing typed,
      or the word starts with the first typed character and the typed
      text is a subsequence of the word. */
  lemma AnchoredMatchIff(typed: string, word: string)
    requires '\n' !in word
    ensures AnchoredMatch(typed, word)
        <==> typed == [] || (|word| > 0 && word[0] == typed[0] && IsSubsequence(typed, word))
  {
    if typed != [] && |word| > 0 && word[0] == typed[0] {
      if Follows(typed[1..], word[1..]) {
        AnchoredMatchSubsequence(typed, word);
      }
      if IsSubsequence(typed, word) {
        SubsequenceAnchoredMatch(typed, word);
      }
    }
  }

  /** Whatever the typed text, a match uses only characters of the word in order. */
  lemma AnchoredMatchIsSubsequence(typed: string, word: string)
    requires AnchoredMatch(typed, word)
    ensures IsSubsequence(typed, word)
  {
    if typed == [] {
      assert Embeds(typed, word, []);
    } else {
      var rest := FollowsEmbeds(typed[1..], word[1..]);
      assert Embeds(typed, word, [0] + Shift(rest, 1));
    }
  }

  /** word_matches, the typed word already lower-cased when ignoring case. */
  predicate WordMatches(options: CompleterOptions, typed: string, candidate: string) {
    var word := if options.ignoreCase then Lower(candidate) else candidate;
    if options.matchMiddle then Contains(word, typed) else AnchoredMatch(typed, word)
  }

  /** Nothing typed matches every candidate. */
  lemma EmptyMatchesAll(options: CompleterOptions, candidate: string)
    ensures WordMatches(options, "", candidate)
  {
    var word := if options.ignoreCase then Lower(candidate) else candidate;
    assert StartsWith(word, "");
  }

  // ---------------------------------------------------------------------
  // Completions

  function Meta(options: CompleterOptions, candidate: string): string {
    if candidate in options.metaDict then options.metaDict[candidate] else ""
  }

  /** The completions for the matching candidates, in candidate order. */
  function Matching(options: CompleterOptions, typed: string, words: seq<string>): seq<Completion>
    decreases |words|
  {
    if words == [] then []
    else
      var a := words[|words| - 1];
      Matching(options, typed, words[..|words| - 1])
      + (if WordMatches(options, typed, a) then [Completion(a, -|typed|, Meta(options, a))] else [])
  }

  /** get_completions' result for the text before the cursor. */
  function Completions(options: CompleterOptions, ms: CompletionSettings, textBeforeCursor: string, wordBeforeCursor: string): seq<Completion> {
    if !StartsWith(textBeforeCursor, ms.leader) then []
    else
      var text := LStrip(textBeforeCursor, ms.leader);
      var (words, word) := Candidates(ms, text, wordBeforeCursor);
      var typed := if options.ignoreCase then Lower(word) else word;
      Matching(options, typed, words)
  }

  /** Matching distributes over concatenation: matches keep candidate order. */
  lemma {:induction false} MatchingAppend(options: CompleterOptions, typed: string, a: seq<string>, b: seq<string>)
    ensures Matching(options, typed, a + b) == Matching(options, typed, a) + Matching(options, typed, b)
    decreases |b|
  {
    if b == [] {
      assert a + b == a;
    } else {
      assert (a + b)[..|a + b| - 1] == a + b[..|b| - 1];
      MatchingAppend(options, typed, a, b[..|b| - 1]);
    }
  }

  /** Every completion is a matching candidate replacing exactly the typed
      word, with its meta text; every matching candidate is offered. */
  lemma {:induction false} MatchingSoundComplete(options: CompleterOptions, typed: string, words: seq<string>)
    ensures forall c :: c in Matching(options, typed, words) ==>
              c.text in words && WordMatches(options, typed, c.text)
              && c.startPosition == -|typed| && c.displayMeta == Meta(options, c.text)
    ensures forall a :: a in words && WordMatches(options, typed, a) ==>
              Completion(a, -|typed|, Meta(options, a)) in Matching(options, typed, words)
    ensures |Matching(options, typed, words)| <= |words|
    decreases |words|
  {
    if words != [] {
      var init := words[..|words| - 1];
      MatchingSoundComplete(options, typed, init);
      assert words == init + [words[|words| - 1]];
    }
  }

  /** Text that does not start with the leader is not completed here. */
  lemma NoLeaderNoCompletions(options: CompleterOptions, ms: CompletionSettings, textBeforeCursor: string, wordBeforeCursor: string)
    requires !StartsWith(textBeforeCursor, ms.leader)
    ensures Completions(options, ms, textBeforeCursor, wordBeforeCursor) == []
  {
  }

  /** With no space after the leader the whole text is the word, completed
      against the command names and then the alias names. */
  lemma CommandNameCompletions(options: CompleterOptions, ms: CompletionSettings, textBeforeCursor: string, wordBeforeCursor: string)
    requires StartsWith(textBeforeCursor, ms.leader) && ' ' !in LStrip(textBeforeCursor, ms.leader)
    ensures var text := LStrip(textBeforeCursor, ms.leader);
            var typed := if options.ignoreCase then Lower(text) else text;
            Completions(options, ms, textBeforeCursor, wordBeforeCursor)
              == Matching(options, typed, CommandNames) + Matching(options, typed, ms.aliases)
  {
    var text := LStrip(textBeforeCursor, ms.leader);
    var typed := if options.ignoreCase then Lower(text) else text;
    MatchingAppend(options, typed, CommandNames, ms.aliases);
  }

  /** The loop of get_completions: each candidate that matches, in order,
      as a completion replacing the typed word. */
  method YieldMatches(options: CompleterOptions, word: string, words: seq<string>) returns (completions: seq<Completion>)
    ensures completions == Matching(options, word, words)
  {
    completions := [];
    var i := 0;
    while i < |words|
      invariant 0 <= i <= |words|
      invariant completions == Matching(options, word, words[..i])
    {
      var a := words[i];
      assert words[..i + 1][..i] == words[..i];
      if WordMatches(options, word, a) {
        completions := completions + [Completion(a, -|word|, Meta(options, a))];
      }
      i := i + 1;
    }
    assert words[..i] == words;
  }

  /** get_completions: the candidate selection, then the matches; the
      generator's yields are collected in order. */
  method GetCompletions(options: CompleterOptions, ms: CompletionSettings, textBeforeCursor: string, wordBeforeCursor: string)
    returns (completions: seq<Completion>)
    ensures completions == Completions(options, ms, textBeforeCursor, wordBeforeCursor)
  {
    if !StartsWith(textBeforeCursor, ms.leader) {
      return [];
    }
    var text := LStrip(textBeforeCursor, ms.leader);
    var words: seq<string>;
    var word: string;
    if ' ' in text {
      word := wordBeforeCursor;
      words := ArgumentCandidates(ms, BeforeFirst(text, ' '));
    } else {
      word := text;
      words := CommandNames + ms.aliases;
    }
    if options.ignoreCase {
      word := Lower(word);
    }
    completions := YieldMatches(options, word, words);
  }
}
