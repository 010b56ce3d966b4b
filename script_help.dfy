/** The help decision of src/minihelp.py, the variant the mini script
    imports: the same three-way decision as src/miniHelp.py, with the
    help-flag outcome named MINI_HELP. */
module ScriptHelp {
  import MiniHelp

  datatype HelpType = UsageHelp | MiniHelpType | NoHelp

  /** shouldHelpOrExecute: the argument count is checked before the first
      argument's text. */
  function ShouldHelpOrExecute(firstArgument: string, argumentCount: int): (r: HelpType)
    ensures argumentCount == 0 <==> r == UsageHelp
    ensures r == MiniHelpType <==> argumentCount != 0 && MiniHelp.IsHelpFlag(firstArgument)
    ensures r == NoHelp <==> argumentCount != 0 && !MiniHelp.IsHelpFlag(firstArgument)
  {
    if argumentCount == 0 then UsageHelp
    else if MiniHelp.IsHelpFlag(firstArgument) then MiniHelpType
    else NoHelp
  }

  /** The two modules take the same decision, MINI_HELP standing for FULL_HELP. */
  lemma AgreesWithMiniHelp(firstArgument: string, argumentCount: int)
    ensures var full := MiniHelp.ShouldHelpOrExecute(firstArgument, argumentCount);
            var mini := ShouldHelpOrExecute(firstArgument, argumentCount);
            && (mini == UsageHelp <==> full == MiniHelp.UsageHelp)
            && (mini == MiniHelpType <==> full == MiniHelp.FullHelp)
            && (mini == NoHelp <==> full == MiniHelp.NoHelp)
  {
  }

  /** With n >= 1 dashes, `-help` and `-h` forms ask for help; `-hx` and a bare `h` do not. */
  lemma Examples(n: nat, count: int)
    requires n >= 1 && count != 0
    ensures ShouldHelpOrExecute(MiniHelp.Dashes(n) + "help", count) == MiniHelpType
    ensures ShouldHelpOrExecute(MiniHelp.Dashes(n) + "h", count) == MiniHelpType
    ensures ShouldHelpOrExecute(MiniHelp.Dashes(n) + "hx", count) == NoHelp
    ensures ShouldHelpOrExecute("h", count) == NoHelp
    ensures ShouldHelpOrExecute(MiniHelp.Dashes(n) + "help", 0) == UsageHelp
  {
    MiniHelp.HelpFlagExamples(n);
  }
}
