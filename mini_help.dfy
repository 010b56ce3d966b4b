/** The help decision and usage message of src/miniHelp.py: whether the
    command line asks for usage help, full help or neither, and the usage
    message giveHelp records through the error manager. */
module MiniHelp {
  import opened Wrappers
  import opened Text
  import opened Errors

  datatype HelpType = UsageHelp | FullHelp | NoHelp

  /** The words that may follow the dashes of a help flag; the pattern's
      `$` also accepts a single newline at the very end. */
  predicate IsHelpWord(w: string) {
    w == "h" || w == "help" || w == "h\n" || w == "help\n"
  }

  /** `re.match('-+h(elp)?$', arg)`: one or more dashes, then h or help, then the end. */
  predicate IsHelpFlag(arg: string) {
    var rest := LStrip(arg, "-");
    |rest| < |arg| && IsHelpWord(rest)
  }

  function Dashes(n: nat): (r: string)
    ensures |r| == n && forall i :: 0 <= i < n ==> r[i] == '-'
  {
    seq(n, _ => '-')
  }

  lemma {:induction false} LStripDashes(n: nat, w: string)
    requires |w| == 0 || w[0] != '-'
    ensures LStrip(Dashes(n) + w, "-") == w
    decreases n
  {
    if n > 0 {
      assert (Dashes(n) + w)[1..] == Dashes(n - 1) + w;
      LStripDashes(n - 1, w);
    } else {
      assert Dashes(n) + w == w;
    }
  }

  /** A help flag is exactly one or more dashes followed by a help word. */
  lemma HelpFlagIff(arg: string)
    ensures IsHelpFlag(arg) <==> exists n :: 1 <= n <= |arg| && arg[..n] == Dashes(n) && IsHelpWord(arg[n..])
  {
    if IsHelpFlag(arg) {
      HelpFlagHasDashes(arg);
    }
    if exists n :: 1 <= n <= |arg| && arg[..n] == Dashes(n) && IsHelpWord(arg[n..]) {
      var n :| 1 <= n <= |arg| && arg[..n] == Dashes(n) && IsHelpWord(arg[n..]);
      DashesMakeHelpFlag(arg, n);
    }
  }

  lemma HelpFlagHasDashes(arg: string)
    requires IsHelpFlag(arg)
    ensures var k := |arg| - |LStrip(arg, "-")|;
            1 <= k <= |arg| && arg[..k] == Dashes(k) && IsHelpWord(arg[k..])
  {
    var rest := LStrip(arg, "-");
    var k := |arg| - |rest|;
    assert arg[k..] == rest;
    forall i | 0 <= i < k
      ensures arg[..k][i] == Dashes(k)[i]
    {
      assert arg[i] in "-";
    }
    assert arg[..k] == Dashes(k);
  }

  lemma DashesMakeHelpFlag(arg: string, n: nat)
    requires 1 <= n <= |arg| && arg[..n] == Dashes(n) && IsHelpWord(arg[n..])
    ensures IsHelpFlag(arg)
  {
    var w := arg[n..];
    assert w[0] == 'h';
    assert arg == Dashes(n) + w;
    LStripDashes(n, w);
  }

  /** Flags such as -h, --help and ---h ask for help; -hx, h and -x do not. */
  lemma HelpFlagExamples(n: nat)
    requires n >= 1
    ensures IsHelpFlag(Dashes(n) + "h") && IsHelpFlag(Dashes(n) + "help")
    ensures !IsHelpFlag(Dashes(n) + "hx") && !IsHelpFlag("h") && !IsHelpFlag(Dashes(n))
  {
    LStripDashes(n, "h");
    LStripDashes(n, "help");
    LStripDashes(n, "hx");
    LStripDashes(n, "");
    assert Dashes(n) + "" == Dashes(n);
  }

  /** shouldHelpOrExecute: usage help when there are no arguments at all,
      full help for a help flag, otherwise neither. */
  function ShouldHelpOrExecute(firstArgument: string, argumentCount: int): (r: HelpType)
    ensures argumentCount == 0 <==> r == UsageHelp
    ensures r == FullHelp <==> argumentCount != 0 && IsHelpFlag(firstArgument)
  {
    if argumentCount == 0 then UsageHelp
    else if IsHelpFlag(firstArgument) then FullHelp
    else NoHelp
  }

  /** The text after the last '/' of the program path. */
  function Basename(programPath: string): string {
    AfterLast(programPath, '/')
  }

  lemma BasenameOfPath(directory: string, name: string)
    requires '/' !in name
    ensures Basename(directory + "/" + name) == name
  {
    var p := directory + "/" + name;
    assert p[|p| - |name| - 1] == '/';
    assert p[|p| - |name|..] == name;
  }

  /** The default trailing-arguments text of giveHelp. */
  const DefaultTrailing: string := "[-{option} | {query_component}] [...]"

  /** The object name giveHelp shows in a usage message, or None where the
      source reaches the unassigned objectName (an UnboundLocalError): a
      plural name not ending in "Rows", or an empty name. */
  function UsageObjectName(objectName: string): Option<string>
  {
    if EndsWith(objectName, "s") then
      if EndsWith(objectName, "Rows") then
        var stem := AfterLast(objectName[..|objectName| - 4], '\n');
        Some("[-rowCount] " + RStrip(stem, 's') + "NameOrList")
      else None
    else if objectName == "both" then Some("tableNameOrList [columnNameOrList]")
    else if objectName != "" then Some(objectName + "Name")
    else None
  }

  lemma EndsWithRowsEndsWithS(objectName: string)
    requires EndsWith(objectName, "Rows")
    ensures EndsWith(objectName, "s")
  {
    assert objectName[|objectName| - 1] == objectName[|objectName| - 4..][3];
  }

  /** The usage path fails exactly for an empty name and for a plural name not ending in "Rows". */
  lemma UsageObjectNameFailsIff(objectName: string)
    ensures UsageObjectName(objectName).None?
        <==> objectName == "" || (EndsWith(objectName, "s") && !EndsWith(objectName, "Rows"))
  {
    if EndsWith(objectName, "Rows") {
      EndsWithRowsEndsWithS(objectName);
    }
  }

  /** `xRows` shows as `[-rowCount] xNameOrList`, trailing s's of x dropped. */
  lemma RowsObjectName(stem: string)
    requires '\n' !in stem
    ensures UsageObjectName(stem + "Rows") == Some("[-rowCount] " + RStrip(stem, 's') + "NameOrList")
  {
    var n := stem + "Rows";
    assert n[|n| - 4..] == "Rows";
    EndsWithRowsEndsWithS(n);
    assert n[..|n| - 4] == stem;
  }

  /** A singular name x other than `both` shows as `xName`. */
  lemma SingularObjectName(objectName: string)
    requires objectName != "" && objectName != "both" && objectName[|objectName| - 1] != 's'
    ensures UsageObjectName(objectName) == Some(objectName + "Name")
  {
  }

  /** Why giveHelp raised instead of returning. */
  datatype HelpError = UnassignedObjectName

  /** giveHelp: a usage message for usage help, the "Details to come."
      override otherwise; either way the error manager's errMsg holds the
      message and SUCCESS is returned. */
  method GiveHelp(em: ErrorManager, programPath: string, helpType: HelpType, objectName: string, trailing: string)
    returns (r: Result<ReturnCode, HelpError>)
    modifies em`errMsg
    ensures helpType == UsageHelp && UsageObjectName(objectName).None? ==> r == Err(UnassignedObjectName) && em.errMsg == old(em.errMsg)
    ensures helpType == UsageHelp && UsageObjectName(objectName).Some? ==>
              r == Ok(Success) && em.errMsg == UsageText(Basename(programPath), UsageObjectName(objectName).value, trailing)
    ensures helpType != UsageHelp ==> r == Ok(Success) && em.errMsg == "Details to come."
  {
    var programName := Basename(programPath);
    if helpType == UsageHelp {
      var name := UsageObjectName(objectName);
      if name.None? {
        return Err(UnassignedObjectName);
      }
      var args := [programName, name.value, trailing];
      var _, _ := em.SetError(HelpAndExit, args, "");
      UsageMessage(programName, name.value, trailing);
      assert Format(Template(HelpAndExit), args).Some?;
    } else {
      var _, _ := em.SetError(HelpAndExit, [], "Details to come.");
    }
    return Ok(Success);
  }
}
