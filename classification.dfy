/** The argument classifier of src/argumentClassifier.py.

    Each token is sorted by its leading character: dash-led tokens are
    options (with three mutually exclusive pairs), `+`-led tokens are select
    particles, tokens holding a compound assignment are updates, and the
    remaining tokens are the main table name (the first one, while no table
    is set) or where-particles.

    Route and Run are the specification; ArgumentClassifier.Classify is the
    loop that updates the classifier's fields in place, proved equal to Run. */
module Classification {
  import opened Wrappers
  import opened Text

  /** The options dict: a toggled option holds None, any other its value text. */
  type Options = map<string, Option<string>>

  /** The key of a dash-led token: the text after all leading dashes, up to the first '='. */
  function OptionKey(arg: string): string {
    BeforeFirst(LStrip(arg, "-"), '=')
  }

  /** The value of a dash-led token: the text after the first '=', or "". */
  function OptionValue(arg: string): string {
    AfterFirst(LStrip(arg, "-"), '=')
  }

  /** The partner pair an option key belongs to: (o, a), (2v, 3v) or (e, i). */
  function ExclusivePair(key: string): (r: Option<(string, string)>)
    ensures r.Some? ==> key == r.value.0 || key == r.value.1
    ensures r == None || r == Some(("o", "a")) || r == Some(("2v", "3v")) || r == Some(("e", "i"))
  {
    if key == "o" || key == "a" then Some(("o", "a"))
    else if key == "2v" || key == "3v" then Some(("2v", "3v"))
    else if key == "e" || key == "i" then Some(("e", "i"))
    else None
  }

  /** A dash-led token is a toggle of its key's pair, or a stored value. */
  lemma OptionRoute(arg: string)
    requires |arg| > 0 && arg[0] == '-'
    ensures ExclusivePair(OptionKey(arg)).Some? ==>
              Route(arg) == Some(Toggle(OptionKey(arg), ExclusivePair(OptionKey(arg)).value.0, ExclusivePair(OptionKey(arg)).value.1))
    ensures ExclusivePair(OptionKey(arg)).None? ==> Route(arg) == Some(SetOption(OptionKey(arg), OptionValue(arg)))
  {
  }

  /** Both members of a pair belong to the same pair. */
  lemma PairMembers(key: string)
    requires ExclusivePair(key).Some?
    ensures ExclusivePair(ExclusivePair(key).value.0) == ExclusivePair(key)
    ensures ExclusivePair(ExclusivePair(key).value.1) == ExclusivePair(key)
  {
  }

  /** The characters that form a compound assignment when followed by '='. */
  const CompoundOperators: string := "+*/%:-"

  /** One of + * / % : - immediately followed by '=' somewhere in the token. */
  predicate HasCompoundAssignment(arg: string)
    decreases |arg|
  {
    |arg| >= 2 && ((arg[0] in CompoundOperators && arg[1] == '=') || HasCompoundAssignment(arg[1..]))
  }

  /** Where a single token goes. */
  datatype Destination =
    | Toggle(key: string, first: string, second: string)
    | SetOption(key: string, value: string)
    | PreSelect(text: string)
    | PostSelect(text: string)
    | Update(token: string)
    | Plain(token: string)

  /** The routing of one token. None is the IndexError raised by indexing past
      the end of the token: an empty token, a bare "+", or "++". */
  function Route(arg: string): (r: Option<Destination>)
    ensures r.Some? && r.value.Toggle? ==> ExclusivePair(r.value.key) == Some((r.value.first, r.value.second))
    ensures r.Some? && r.value.SetOption? ==> ExclusivePair(r.value.key).None?
    ensures r.Some? && r.value.Plain? ==> r.value.token != ""
  {
    if |arg| == 0 then None
    else if arg[0] == '-' then
      var key := OptionKey(arg);
      match ExclusivePair(key)
      case Some(pair) => Some(Toggle(key, pair.0, pair.1))
      case None => Some(SetOption(key, OptionValue(arg)))
    else if arg[0] == '+' then
      if |arg| < 2 then None
      else if arg[1] == '+' then
        if |arg| < 3 then None
        else if arg[2] == '1' then Some(PreSelect("+" + arg[3..]))
        else Some(PostSelect(arg[1..]))
      else if arg[1] == '1' then Some(PreSelect(arg[2..]))
      else Some(PostSelect(arg[1..]))
    else if HasCompoundAssignment(arg) then Some(Update(arg))
    else Some(Plain(arg))
  }

  /** The classifier's fields as one value. */
  datatype ArgState = ArgState(
    mainTableName: string,
    options: Options,
    preSelects: seq<string>,
    postSelects: seq<string>,
    wheres: seq<string>,
    updates: seq<string>)

  const Initial: ArgState := ArgState("", map[], [], [], [], [])

  /** _toggleOptions: drop the partner of setTo (or value1 when setTo is not
      value1), then store setTo with the value None. */
  function Toggled(options: Options, setTo: string, value1: string, value2: string): Options
  {
    (if setTo == value1 then options - {value2} else options - {value1})[setTo := None]
  }

  function Apply(st: ArgState, d: Destination): ArgState
  {
    match d
    case Toggle(key, first, second) => st.(options := Toggled(st.options, key, first, second))
    case SetOption(key, value) => st.(options := st.options[key := Some(value)])
    case PreSelect(text) => st.(preSelects := st.preSelects + [text])
    case PostSelect(text) => st.(postSelects := st.postSelects + [text])
    case Update(token) => st.(updates := st.updates + [token])
    case Plain(token) =>
      if st.mainTableName == "" then st.(mainTableName := token)
      else st.(wheres := st.wheres + [token])
  }

  function Step(st: ArgState, arg: string): Option<ArgState>
  {
    match Route(arg)
    case None => None
    case Some(d) => Some(Apply(st, d))
  }

  /** The state after classifying args, and whether every token was
      classified; a token that raises stops the run with the state reached
      so far. */
  datatype RunResult = RunResult(state: ArgState, completed: bool)

  function Run(st: ArgState, args: seq<string>): RunResult
    decreases |args|
  {
    if |args| == 0 then RunResult(st, true)
    else
      var before := Run(st, args[..|args| - 1]);
      if !before.completed then before
      else match Step(before.state, args[|args| - 1])
        case None => RunResult(before.state, false)
        case Some(next) => RunResult(next, true)
  }

  // ---------------------------------------------------------------------
  // Failure

  lemma {:induction false} RunAfterFailure(st: ArgState, xs: seq<string>, ys: seq<string>)
    requires !Run(st, xs).completed
    ensures Run(st, xs + ys) == Run(st, xs)
    decreases |ys|
  {
    if |ys| == 0 {
      assert xs + ys == xs;
    } else {
      var zs := xs + ys;
      assert zs[..|zs| - 1] == xs + ys[..|ys| - 1];
      RunAfterFailure(st, xs, ys[..|ys| - 1]);
    }
  }

  /** Running one more token is one Step from the state reached so far. */
  lemma RunSnoc(st: ArgState, args: seq<string>, i: nat)
    requires i < |args| && Run(st, args[..i]).completed
    ensures Run(st, args[..i + 1]) == match Step(Run(st, args[..i]).state, args[i])
                                      case None => RunResult(Run(st, args[..i]).state, false)
                                      case Some(next) => RunResult(next, true)
  {
    assert args[..i + 1][..i] == args[..i];
  }

  /** A token that raises ends the whole run where it stands. */
  lemma RunStopsAt(st: ArgState, args: seq<string>, i: nat)
    requires i < |args| && Run(st, args[..i]).completed && Step(Run(st, args[..i]).state, args[i]).None?
    ensures Run(st, args) == RunResult(Run(st, args[..i]).state, false)
  {
    RunSnoc(st, args, i);
    RunAfterFailure(st, args[..i + 1], args[i + 1..]);
    assert args[..i + 1] + args[i + 1..] == args;
  }

  /** A run completes exactly when every token can be routed. */
  lemma {:induction false} RunCompletesIff(st: ArgState, args: seq<string>)
    ensures Run(st, args).completed <==> forall i :: 0 <= i < |args| ==> Route(args[i]).Some?
    decreases |args|
  {
    if |args| > 0 {
      var prefix := args[..|args| - 1];
      RunCompletesIff(st, prefix);
      assert forall i :: 0 <= i < |prefix| ==> prefix[i] == args[i];
    }
  }

  /** A run that does not complete stops at the first token that raises,
      leaving the state reached by the tokens before it. */
  lemma {:induction false} RunStopsAtFirstBadToken(st: ArgState, args: seq<string>) returns (i: nat)
    requires !Run(st, args).completed
    ensures i < |args| && Route(args[i]).None?
    ensures forall j :: 0 <= j < i ==> Route(args[j]).Some?
    ensures Run(st, args[..i]).completed && Run(st, args).state == Run(st, args[..i]).state
    decreases |args|
  {
    var prefix := args[..|args| - 1];
    if !Run(st, prefix).completed {
      i := RunStopsAtFirstBadToken(st, prefix);
      assert prefix[..i] == args[..i];
    } else {
      i := |args| - 1;
      assert prefix == args[..i];
      RunCompletesIff(st, prefix);
    }
  }

  // ---------------------------------------------------------------------
  // Options

  predicate AtMostOneOf(options: Options, a: string, b: string) {
    !(a in options && b in options)
  }

  /** At most one member of each pair o/a, 2v/3v, e/i is present. */
  predicate PairsExclusive(options: Options) {
    AtMostOneOf(options, "o", "a") && AtMostOneOf(options, "2v", "3v") && AtMostOneOf(options, "e", "i")
  }

  /** Setting one member of a pair leaves it present with None and its partner absent. */
  lemma ToggleSelectsOne(options: Options, key: string)
    requires ExclusivePair(key).Some?
    ensures var (first, second) := ExclusivePair(key).value;
            var after := Toggled(options, key, first, second);
            && key in after && after[key] == None
            && (if key == first then second else first) !in after
            && forall k :: k in options && ExclusivePair(k) != ExclusivePair(key) ==> k in after && after[k] == options[k]
  {
  }

  /** Toggling one pair leaves the keys of every other pair, and every unpaired key, alone. */
  lemma ToggleOtherKey(options: Options, key: string, first: string, second: string, k: string)
    requires ExclusivePair(key) == Some((first, second))
    requires ExclusivePair(k) != Some((first, second))
    ensures k in Toggled(options, key, first, second) <==> k in options
    ensures k in options ==> Toggled(options, key, first, second)[k] == options[k]
  {
    PairMembers(key);
  }

  lemma ToggledExclusive(options: Options, key: string, first: string, second: string)
    requires PairsExclusive(options) && ExclusivePair(key) == Some((first, second))
    ensures PairsExclusive(Toggled(options, key, first, second))
  {
    var after := Toggled(options, key, first, second);
    assert (if key == first then second else first) !in after;
    forall k | ExclusivePair(k) != Some((first, second))
      ensures k in after <==> k in options
    {
      ToggleOtherKey(options, key, first, second, k);
    }
    assert ExclusivePair("o") == Some(("o", "a")) && ExclusivePair("a") == Some(("o", "a"));
    assert ExclusivePair("2v") == Some(("2v", "3v")) && ExclusivePair("3v") == Some(("2v", "3v"));
    assert ExclusivePair("e") == Some(("e", "i")) && ExclusivePair("i") == Some(("e", "i"));
  }

  lemma StepKeepsPairsExclusive(st: ArgState, arg: string)
    requires PairsExclusive(st.options) && Step(st, arg).Some?
    ensures PairsExclusive(Step(st, arg).value.options)
  {
    match Route(arg).value
    case Toggle(key, first, second) =>
      ToggledExclusive(st.options, key, first, second);
    case SetOption(key, value) =>
      assert ExclusivePair("o").Some? && ExclusivePair("a").Some?;
      assert ExclusivePair("2v").Some? && ExclusivePair("3v").Some?;
      assert ExclusivePair("e").Some? && ExclusivePair("i").Some?;
    case _ =>
  }

  /** If at most one member of each pair is present before, the same holds after. */
  lemma {:induction false} RunKeepsPairsExclusive(st: ArgState, args: seq<string>)
    requires PairsExclusive(st.options)
    ensures PairsExclusive(Run(st, args).state.options)
    decreases |args|
  {
    if |args| > 0 {
      var prefix := args[..|args| - 1];
      RunKeepsPairsExclusive(st, prefix);
      var before := Run(st, prefix);
      if before.completed && Step(before.state, args[|args| - 1]).Some? {
        StepKeepsPairsExclusive(before.state, args[|args| - 1]);
      }
    }
  }

  /** The key a token toggles, when it toggles the pair whose first member is first. */
  function ToggleOf(arg: string, first: string): Option<string>
  {
    match Route(arg)
    case Some(Toggle(k, f, _)) => if f == first then Some(k) else None
    case _ => None
  }

  /** The value a token gives the option key, when it sets that option. */
  function SettingOf(arg: string, key: string): Option<string>
  {
    match Route(arg)
    case Some(SetOption(k, v)) => if k == key then Some(v) else None
    case _ => None
  }

  /** The key of the last token of args that toggles the pair whose first member is first. */
  function LastToggle(args: seq<string>, first: string): Option<string>
    decreases |args|
  {
    if |args| == 0 then None
    else if ToggleOf(args[|args| - 1], first).Some? then ToggleOf(args[|args| - 1], first)
    else LastToggle(args[..|args| - 1], first)
  }

  /** The value of the last token of args that sets the (unpaired) option key. */
  function LastSetting(args: seq<string>, key: string): Option<string>
    decreases |args|
  {
    if |args| == 0 then None
    else if SettingOf(args[|args| - 1], key).Some? then SettingOf(args[|args| - 1], key)
    else LastSetting(args[..|args| - 1], key)
  }

  lemma RunPrefixCompleted(st: ArgState, args: seq<string>)
    requires |args| > 0 && Run(st, args).completed
    ensures Run(st, args[..|args| - 1]).completed
    ensures Step(Run(st, args[..|args| - 1]).state, args[|args| - 1]) == Some(Run(st, args).state)
  {
  }

  /** The last toggle of a pair wins: its key is present with None and its partner is absent. */
  lemma {:induction false} LastToggleWins(st: ArgState, args: seq<string>, first: string, second: string, key: string)
    requires ExclusivePair(first) == Some((first, second))
    requires Run(st, args).completed
    requires LastToggle(args, first) == Some(key)
    ensures key in Run(st, args).state.options && Run(st, args).state.options[key] == None
    ensures (if key == first then second else first) !in Run(st, args).state.options
    decreases |args|
  {
    var prefix := args[..|args| - 1];
    RunPrefixCompleted(st, args);
    var before := Run(st, prefix).state;
    LastToggleKey(args, first, second, key);
    PairMembers(key);
    var d := Route(args[|args| - 1]);
    if ToggleOf(args[|args| - 1], first).None? {
      LastToggleWins(st, prefix, first, second, key);
      var partner := if key == first then second else first;
      match d.value
      case Toggle(k, f, s) =>
        ToggleOtherKey(before.options, k, f, s, key);
        ToggleOtherKey(before.options, k, f, s, partner);
      case _ =>
    }
  }

  /** The key LastToggle reports is a member of the pair asked about. */
  lemma {:induction false} LastToggleKey(args: seq<string>, first: string, second: string, key: string)
    requires ExclusivePair(first) == Some((first, second))
    requires LastToggle(args, first) == Some(key)
    ensures ExclusivePair(key) == Some((first, second))
    decreases |args|
  {
    if ToggleOf(args[|args| - 1], first).Some? {
      PairMembers(key);
    } else {
      LastToggleKey(args[..|args| - 1], first, second, key);
    }
  }

  /** The last value given to an unpaired option wins; with no such token the option is untouched. */
  lemma {:induction false} LastSettingWins(st: ArgState, args: seq<string>, key: string)
    requires ExclusivePair(key).None?
    requires Run(st, args).completed
    ensures var options := Run(st, args).state.options;
            match LastSetting(args, key)
            case Some(v) => key in options && options[key] == Some(v)
            case None => (key in options <==> key in st.options) && (key in options ==> options[key] == st.options[key])
    decreases |args|
  {
    if |args| > 0 {
      var prefix := args[..|args| - 1];
      RunPrefixCompleted(st, args);
      LastSettingWins(st, prefix, key);
      var before := Run(st, prefix).state;
      match Route(args[|args| - 1]).value
      case Toggle(k, f, s) =>
        ToggleOtherKey(before.options, k, f, s, key);
      case _ =>
    }
  }

  lemma {:induction false} LastToggleAppend(a: seq<string>, b: seq<string>, first: string)
    ensures LastToggle(a + b, first) == if LastToggle(b, first).Some? then LastToggle(b, first) else LastToggle(a, first)
    decreases |b|
  {
    if |b| == 0 {
      assert a + b == a;
    } else {
      var ab := a + b;
      assert ab[..|ab| - 1] == a + b[..|b| - 1] && ab[|ab| - 1] == b[|b| - 1];
      LastToggleAppend(a, b[..|b| - 1], first);
    }
  }

  lemma {:induction false} LastSettingAppend(a: seq<string>, b: seq<string>, key: string)
    ensures LastSetting(a + b, key) == if LastSetting(b, key).Some? then LastSetting(b, key) else LastSetting(a, key)
    decreases |b|
  {
    if |b| == 0 {
      assert a + b == a;
    } else {
      var ab := a + b;
      assert ab[..|ab| - 1] == a + b[..|b| - 1] && ab[|ab| - 1] == b[|b| - 1];
      LastSettingAppend(a, b[..|b| - 1], key);
    }
  }

  /** The preconfigured (backdoor) options are processed first, so a toggle on
      the command line beats the preconfigured member of the same pair. */
  lemma ExplicitToggleWins(st: ArgState, backdoor: seq<string>, argList: seq<string>,
                           first: string, second: string, key: string)
    requires ExclusivePair(first) == Some((first, second))
    requires Run(st, backdoor + argList).completed
    requires LastToggle(argList, first) == Some(key)
    ensures key in Run(st, backdoor + argList).state.options
    ensures (if key == first then second else first) !in Run(st, backdoor + argList).state.options
  {
    LastToggleAppend(backdoor, argList, first);
    LastToggleWins(st, backdoor + argList, first, second, key);
  }

  /** ... and a value given on the command line beats the preconfigured one. */
  lemma ExplicitSettingWins(st: ArgState, backdoor: seq<string>, argList: seq<string>, key: string, value: string)
    requires ExclusivePair(key).None?
    requires Run(st, backdoor + argList).completed
    requires LastSetting(argList, key) == Some(value)
    ensures key in Run(st, backdoor + argList).state.options
    ensures Run(st, backdoor + argList).state.options[key] == Some(value)
  {
    LastSettingAppend(backdoor, argList, key);
    LastSettingWins(st, backdoor + argList, key);
  }

  // ---------------------------------------------------------------------
  // Lists

  datatype Bucket = PreSelects | PostSelects | Updates

  function BucketOf(st: ArgState, b: Bucket): seq<string>
  {
    match b
    case PreSelects => st.preSelects
    case PostSelects => st.postSelects
    case Updates => st.updates
  }

  /** The entries args contribute to a list, in input order. */
  function Routed(args: seq<string>, b: Bucket): seq<string>
    decreases |args|
  {
    if |args| == 0 then []
    else
      Routed(args[..|args| - 1], b) +
      match Route(args[|args| - 1])
      case Some(PreSelect(t)) => if b == PreSelects then [t] else []
      case Some(PostSelect(t)) => if b == PostSelects then [t] else []
      case Some(Update(t)) => if b == Updates then [t] else []
      case _ => []
  }

  /** The plain tokens of args (table name and where-particles), in input order. */
  function PlainTokens(args: seq<string>): (r: seq<string>)
    ensures forall i :: 0 <= i < |r| ==> r[i] != ""
    decreases |args|
  {
    if |args| == 0 then []
    else PlainTokens(args[..|args| - 1]) + PlainOf(args[|args| - 1])
  }

  function PlainOf(arg: string): (r: seq<string>)
    ensures forall i :: 0 <= i < |r| ==> r[i] != ""
  {
    match Route(arg)
    case Some(Plain(t)) => [t]
    case _ => []
  }

  /** The table name is the first plain token while none was set; the other plain tokens follow in wheres. */
  predicate TableThenWheres(st: ArgState, final: ArgState, plain: seq<string>)
  {
    if st.mainTableName != "" then
      final.mainTableName == st.mainTableName && final.wheres == st.wheres + plain
    else if plain == [] then
      final.mainTableName == "" && final.wheres == st.wheres
    else
      final.mainTableName == plain[0] && final.wheres == st.wheres + plain[1..]
  }

  lemma TableThenWheresStep(st: ArgState, mid: ArgState, plain: seq<string>, arg: string)
    requires TableThenWheres(st, mid, plain) && Route(arg).Some?
    requires forall i :: 0 <= i < |plain| ==> plain[i] != ""
    ensures TableThenWheres(st, Apply(mid, Route(arg).value), plain + PlainOf(arg))
  {
    var d := Route(arg).value;
    if d.Plain? {
      assert PlainOf(arg) == [d.token];
      PlainTokenStep(st, mid, plain, d.token);
    } else {
      assert PlainOf(arg) == [];
      assert plain + [] == plain;
      OtherTokenStep(st, mid, plain, d);
    }
  }

  /** A plain token fills the table name when none is set, and otherwise joins wheres. */
  lemma PlainTokenStep(st: ArgState, mid: ArgState, plain: seq<string>, t: string)
    requires TableThenWheres(st, mid, plain) && t != ""
    requires forall i :: 0 <= i < |plain| ==> plain[i] != ""
    ensures TableThenWheres(st, Apply(mid, Plain(t)), plain + [t])
  {
    if plain != [] {
      assert (plain + [t])[1..] == plain[1..] + [t];
      assert (plain + [t])[0] == plain[0];
    } else {
      assert plain + [t] == [t];
    }
  }

  /** Any other token leaves the table name and wheres alone. */
  lemma OtherTokenStep(st: ArgState, mid: ArgState, plain: seq<string>, d: Destination)
    requires TableThenWheres(st, mid, plain) && !d.Plain?
    ensures TableThenWheres(st, Apply(mid, d), plain)
  {
  }

  /** The select and update lists only grow: each ends as its old contents
      followed by the entries of the tokens, in input order. */
  lemma {:induction false} RunFillsBuckets(st: ArgState, args: seq<string>, b: Bucket)
    requires Run(st, args).completed
    ensures BucketOf(Run(st, args).state, b) == BucketOf(st, b) + Routed(args, b)
    decreases |args|
  {
    if |args| > 0 {
      RunPrefixCompleted(st, args);
      RunFillsBuckets(st, args[..|args| - 1], b);
    }
  }

  /** The first plain token becomes the table name only while none is set;
      every other plain token is appended to wheres, in input order. */
  lemma {:induction false} RunSetsTableThenWheres(st: ArgState, args: seq<string>)
    requires Run(st, args).completed
    ensures TableThenWheres(st, Run(st, args).state, PlainTokens(args))
    decreases |args|
  {
    if |args| > 0 {
      var prefix := args[..|args| - 1];
      RunPrefixCompleted(st, args);
      RunSetsTableThenWheres(st, prefix);
      TableThenWheresStep(st, Run(st, prefix).state, PlainTokens(prefix), args[|args| - 1]);
    }
  }

  /** How many places a state holds tokens in: the four lists and the table name. */
  function Placed(st: ArgState): nat
  {
    |st.preSelects| + |st.postSelects| + |st.wheres| + |st.updates| + (if st.mainTableName != "" then 1 else 0)
  }

  function OptionTokenCount(args: seq<string>): nat
    decreases |args|
  {
    if |args| == 0 then 0
    else
      OptionTokenCount(args[..|args| - 1]) +
      match Route(args[|args| - 1])
      case Some(Toggle(_, _, _)) => 1
      case Some(SetOption(_, _)) => 1
      case _ => 0
  }

  /** Every token that is not an option lands in exactly one place: the
      lists and the table name together gain one entry per such token. */
  lemma {:induction false} RunPlacesEachToken(st: ArgState, args: seq<string>)
    requires Run(st, args).completed
    ensures OptionTokenCount(args) <= |args|
    ensures Placed(Run(st, args).state) == Placed(st) + |args| - OptionTokenCount(args)
    decreases |args|
  {
    if |args| > 0 {
      RunPrefixCompleted(st, args);
      RunPlacesEachToken(st, args[..|args| - 1]);
    }
  }

  /** Option tokens leave the lists and the table name alone; other tokens leave the options alone. */
  lemma StepTouchesOneKind(st: ArgState, arg: string)
    requires Route(arg).Some?
    ensures var after := Apply(st, Route(arg).value);
            if Route(arg).value.Toggle? || Route(arg).value.SetOption? then
              after.(options := st.options) == st
            else
              after.options == st.options && Placed(after) == Placed(st) + 1
  {
  }

  // ---------------------------------------------------------------------
  // Token forms

  /** The four select-particle forms +x, ++x, +1x, ++1x. */
  lemma PlusForms(x: string)
    ensures Route("++1" + x) == Some(PreSelect("+" + x))
    ensures Route("+1" + x) == Some(PreSelect(x))
    ensures x != "" && x[0] != '1' ==> Route("++" + x) == Some(PostSelect("+" + x))
    ensures x != "" && x[0] != '1' && x[0] != '+' ==> Route("+" + x) == Some(PostSelect(x))
  {
    assert ("++1" + x)[3..] == x;
    assert ("+1" + x)[2..] == x;
    assert ("++" + x)[1..] == "+" + x;
    assert ("+" + x)[1..] == x;
  }

  /** A compound assignment is detected wherever it stands in the token. */
  lemma {:induction false} CompoundAssignmentAnywhere(arg: string, i: nat)
    requires i + 1 < |arg| && arg[i] in CompoundOperators && arg[i + 1] == '='
    ensures HasCompoundAssignment(arg)
    decreases i
  {
    if i > 0 {
      CompoundAssignmentAnywhere(arg[1..], i - 1);
    }
  }

  lemma {:induction false} CompoundAssignmentFound(arg: string) returns (i: nat)
    requires HasCompoundAssignment(arg)
    ensures i + 1 < |arg| && arg[i] in CompoundOperators && arg[i + 1] == '='
    decreases |arg|
  {
    if arg[0] in CompoundOperators && arg[1] == '=' {
      i := 0;
    } else {
      var j := CompoundAssignmentFound(arg[1..]);
      i := j + 1;
    }
  }

  lemma NoCompoundAssignment(arg: string)
    requires forall i :: 0 <= i < |arg| - 1 ==> !(arg[i] in CompoundOperators && arg[i + 1] == '=')
    ensures !HasCompoundAssignment(arg)
  {
    if HasCompoundAssignment(arg) {
      var i := CompoundAssignmentFound(arg);
      assert false;
    }
  }

  lemma ExampleRoutes()
    ensures Route("mytable") == Some(Plain("mytable"))
    ensures Route("id=5") == Some(Plain("id=5"))
    ensures Route("+name") == Some(PostSelect("name"))
  {
    assert Route("mytable") == Some(Plain("mytable")) by {
      assert '=' !in "mytable";
      NoAssignmentWithoutEquals("mytable");
    }
    assert Route("id=5") == Some(Plain("id=5")) by {
      var w := "id=5";
      forall i | 0 <= i < |w| - 1
        ensures !(w[i] in CompoundOperators && w[i + 1] == '=')
      {
        assert w[1] == 'd' && w[3] == '5';
      }
      NoCompoundAssignment(w);
    }
    assert "+name"[1..] == "name";
  }

  /** A token without '=' is never an update. */
  lemma NoAssignmentWithoutEquals(arg: string)
    requires '=' !in arg
    ensures !HasCompoundAssignment(arg)
  {
    forall i | 0 <= i < |arg| - 1
      ensures !(arg[i] in CompoundOperators && arg[i + 1] == '=')
    {
      assert arg[i + 1] in arg;
    }
    NoCompoundAssignment(arg);
  }

  /** classify(["mytable", "id=5", "+name"]) on a fresh classifier. */
  lemma ClassifyExample()
    ensures Run(Initial, ["mytable", "id=5", "+name"])
         == RunResult(ArgState("mytable", map[], [], ["name"], ["id=5"], []), true)
  {
    ExampleRoutes();
    var args := ["mytable", "id=5", "+name"];
    var one := Initial.(mainTableName := "mytable");
    var two := one.(wheres := ["id=5"]);
    assert args[..2] == ["mytable", "id=5"];
    assert args[..2][..1] == ["mytable"];
    assert ["mytable"][..0] == [];
    assert Run(Initial, ["mytable"]) == RunResult(one, true);
    assert Run(Initial, ["mytable", "id=5"]) == RunResult(two, true);
  }

  /** For a token that is neither an option nor a select particle, the
      compound-assignment test decides between an update and a plain token. */
  lemma RouteBareToken(arg: string)
    requires |arg| > 0 && arg[0] != '-' && arg[0] != '+'
    ensures (exists i :: 0 <= i < |arg| - 1 && arg[i] in CompoundOperators && arg[i + 1] == '=')
            ==> Route(arg) == Some(Update(arg))
    ensures (forall i :: 0 <= i < |arg| - 1 ==> !(arg[i] in CompoundOperators && arg[i + 1] == '='))
            ==> Route(arg) == Some(Plain(arg))
  {
    if exists i :: 0 <= i < |arg| - 1 && arg[i] in CompoundOperators && arg[i + 1] == '=' {
      var i :| 0 <= i < |arg| - 1 && arg[i] in CompoundOperators && arg[i + 1] == '=';
      CompoundAssignmentAnywhere(arg, i);
    } else {
      NoCompoundAssignment(arg);
    }
  }

  /** The routing as written: the module never imports `re`, so every token
      that reaches the compound-assignment test raises NameError (None). */
  function RouteAsWritten(arg: string): Option<Destination>
  {
    if |arg| > 0 && arg[0] != '-' && arg[0] != '+' then None else Route(arg)
  }

  /** As written, a table name cannot be given at all: the first bare token raises. */
  lemma AsWrittenRejectsBareTokens(arg: string)
    ensures RouteAsWritten(arg).None? <==> Route(arg).None? || (arg[0] != '-' && arg[0] != '+')
    ensures RouteAsWritten("mytable").None? && Route("mytable") == Some(Plain("mytable"))
  {
    ExampleRoutes();
  }

  // ---------------------------------------------------------------------
  // The classifier object

  /** The classifier singleton; its lists and options persist across calls. */
  class ArgumentClassifier {
    var mainTableName: string
    var options: Options
    var preSelects: seq<string>
    var postSelects: seq<string>
    var wheres: seq<string>
    var updates: seq<string>

    function State(): ArgState
      reads this
    {
      ArgState(mainTableName, options, preSelects, postSelects, wheres, updates)
    }

    constructor ()
      ensures State() == Initial
    {
      mainTableName := "";
      options := map[];
      preSelects := [];
      postSelects := [];
      wheres := [];
      updates := [];
    }

    /** _toggleOptions */
    method ToggleOptions(setTo: string, value1: string, value2: string)
      modifies this`options
      ensures options == Toggled(old(options), setTo, value1, value2)
    {
      if setTo == value1 {
        if value2 in options {
          options := options - {value2};
        }
      } else {
        if value1 in options {
          options := options - {value1};
        }
      }
      options := options[setTo := None];
    }

    /** The body of classify's loop for one token. Returns true when the
        token raised IndexError, which happens before any field changes. */
    method ClassifyToken(arg: string) returns (raised: bool)
      modifies this
      ensures raised <==> Route(arg).None?
      ensures raised ==> State() == old(State())
      ensures !raised ==> State() == Apply(old(State()), Route(arg).value)
    {
      raised := false;
      if |arg| == 0 {
        raised := true;
      } else if arg[0] == '-' {
        ClassifyOption(arg);
      } else if arg[0] == '+' {
        raised := ClassifySelect(arg);
      } else if HasCompoundAssignment(arg) {
        updates := updates + [arg];
      } else if mainTableName == "" {
        mainTableName := arg;
      } else {
        wheres := wheres + [arg];
      }
    }

    /** The option branch: a toggle for a paired key, a stored value otherwise. */
    method ClassifyOption(arg: string)
      requires |arg| > 0 && arg[0] == '-'
      modifies this`options
      ensures Route(arg).Some? && State() == Apply(old(State()), Route(arg).value)
    {
      var stripped := LStrip(arg, "-");
      var op := BeforeFirst(stripped, '=');
      var vl := AfterFirst(stripped, '=');
      assert op == OptionKey(arg) && vl == OptionValue(arg);
      OptionRoute(arg);
      if op == "o" || op == "a" {
        assert ExclusivePair(op) == Some(("o", "a"));
        ToggleOptions(op, "o", "a");
      } else if op == "2v" || op == "3v" {
        assert ExclusivePair(op) == Some(("2v", "3v"));
        ToggleOptions(op, "2v", "3v");
      } else if op == "e" || op == "i" {
        assert ExclusivePair(op) == Some(("e", "i"));
        ToggleOptions(op, "e", "i");
      } else {
        assert ExclusivePair(op).None?;
        options := options[op := Some(vl)];
      }
    }

    /** The select branch: `++1x`, `++x`, `+1x` or `+x`; a bare `+` or `++` raises. */
    method ClassifySelect(arg: string) returns (raised: bool)
      requires |arg| > 0 && arg[0] == '+'
      modifies this`preSelects, this`postSelects
      ensures raised <==> Route(arg).None?
      ensures raised ==> State() == old(State())
      ensures !raised ==> State() == Apply(old(State()), Route(arg).value)
    {
      raised := false;
      if |arg| < 2 {
        raised := true;
      } else if arg[1] == '+' {
        if |arg| < 3 {
          raised := true;
        } else if arg[2] == '1' {
          preSelects := preSelects + ["+" + arg[3..]];
        } else {
          postSelects := postSelects + [arg[1..]];
        }
      } else if arg[1] == '1' {
        preSelects := preSelects + [arg[2..]];
      } else {
        postSelects := postSelects + [arg[1..]];
      }
    }

    /** classify: the preconfigured tokens, then the command-line tokens.
        Returns false when a token raised, with the fields as they were
        updated by the tokens before it. */
    method Classify(backdoor: seq<string>, argList: seq<string>) returns (completed: bool)
      modifies this
      ensures RunResult(State(), completed) == Run(old(State()), backdoor + argList)
    {
      var tokens := backdoor + argList;
      var i := 0;
      while i < |tokens|
        invariant 0 <= i <= |tokens|
        invariant Run(old(State()), tokens[..i]) == RunResult(State(), true)
      {
        RunSnoc(old(State()), tokens, i);
        var raised := ClassifyToken(tokens[i]);
        if raised {
          RunStopsAt(old(State()), tokens, i);
          return false;
        }
        i := i + 1;
      }
      assert tokens[..i] == tokens;
      return true;
    }
  }
}
