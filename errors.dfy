/** The error manager of src/errorManager.py: the return codes, the message
    templates keyed by a code's value, and the singleton whose setError
    records a message. */
module Errors {
  import opened Wrappers
  import opened Text

  datatype ReturnCode =
    | Success
    | HelpAndExit
    | InfeasibleExpr
    | MissingArgument
    | EmptyResultSet
    | IllFormedConfigFile
    | InvalidType
    | DescriptionFileRead
    | InvalidDate
    | UnbalancedParentheses

  /** The enum's value, which keys the template table. */
  function CodeValue(code: ReturnCode): (n: nat)
    ensures n <= 9
    ensures n == 0 <==> code == Success
  {
    match code
    case Success => 0
    case HelpAndExit => 1
    case InfeasibleExpr => 2
    case MissingArgument => 3
    case EmptyResultSet => 4
    case IllFormedConfigFile => 5
    case InvalidType => 6
    case DescriptionFileRead => 7
    case InvalidDate => 8
    case UnbalancedParentheses => 9
  }

  /** The HELP_AND_EXIT template "USAGE: {0} {1} {2}\nType {0} -h or --help for detailed help.",
      written piece by piece around its replacement fields. */
  const UsageTemplate: string :=
    "USAGE: " + ("{0}" + (" " + ("{1}" + (" " + ("{2}" + ("\nType " + ("{0}" + " -h or --help for detailed help.")))))))

  /** errorMsgDict[code.value]. */
  function Template(code: ReturnCode): string
  {
    match code
    case Success => ""
    case HelpAndExit => UsageTemplate
    case InfeasibleExpr => "Illegal grammar / no feasible interpretation for \"{0}\"."
    case MissingArgument => "First non-option argument must be a table name."
    case EmptyResultSet => "No results returned."
    case IllFormedConfigFile => "Attribute \"{0}\" not allowed in regex section of config file."
    case InvalidType => "Invalid type for expression \"{0}\"."
    case DescriptionFileRead => "Cannot read {0} description file \"{1}\"."
    case InvalidDate => "Invalid date expression."
    case UnbalancedParentheses => "Error: Unbalanced parentheses in argument {0}."
  }

  predicate IsDigit(c: char) { '0' <= c <= '9' }

  /** A positional replacement field `{n}` at the start of t. */
  predicate PlaceholderAt(t: string) {
    |t| >= 3 && t[0] == '{' && IsDigit(t[1]) && t[2] == '}'
  }

  function DigitValue(c: char): nat
    requires IsDigit(c)
  {
    c as int - '0' as int
  }

  /** template.format(*args) for templates whose replacement fields are
      single-digit positional fields, as all of errorMsgDict's are.
      None stands for the IndexError raised by a field with no argument. */
  function Format(template: string, args: seq<string>): Option<string>
    decreases |template|
  {
    if |template| == 0 then Some("")
    else if PlaceholderAt(template) then
      var d := DigitValue(template[1]);
      if d < |args| then
        match Format(template[3..], args)
        case Some(rest) => Some(args[d] + rest)
        case None => None
      else None
    else
      match Format(template[1..], args)
      case Some(rest) => Some([template[0]] + rest)
      case None => None
  }

  /** The argument positions a template refers to, left to right. */
  function Placeholders(template: string): seq<nat>
    decreases |template|
  {
    if |template| == 0 then []
    else if PlaceholderAt(template) then [DigitValue(template[1])] + Placeholders(template[3..])
    else Placeholders(template[1..])
  }

  /** Every field of a template names one of n arguments. */
  predicate FieldsBelow(fields: seq<nat>, n: nat) {
    forall i :: 0 <= i < |fields| ==> fields[i] < n
  }

  lemma FieldsBelowCons(k: nat, fields: seq<nat>, n: nat)
    ensures FieldsBelow([k] + fields, n) <==> k < n && FieldsBelow(fields, n)
  {
    var all := [k] + fields;
    if k < n && FieldsBelow(fields, n) {
      forall i | 0 <= i < |all| ensures all[i] < n {
        if i > 0 {
          assert all[i] == fields[i - 1];
        }
      }
    }
    if FieldsBelow(all, n) {
      assert all[0] == k;
      forall i | 0 <= i < |fields| ensures fields[i] < n {
        assert all[i + 1] == fields[i];
      }
    }
  }

  /** Formatting fails exactly when some field names a missing argument. */
  lemma {:induction false} FormatSucceedsIff(template: string, args: seq<string>)
    ensures Format(template, args).Some? <==> FieldsBelow(Placeholders(template), |args|)
    decreases |template|
  {
    if |template| == 0 {
    } else if PlaceholderAt(template) {
      var k := DigitValue(template[1]);
      var tail := Placeholders(template[3..]);
      assert Placeholders(template) == [k] + tail;
      FormatSucceedsIff(template[3..], args);
      FieldsBelowCons(k, tail, |args|);
    } else {
      assert Placeholders(template) == Placeholders(template[1..]);
      FormatSucceedsIff(template[1..], args);
    }
  }

  /** Text without a replacement field is copied unchanged. */
  lemma {:induction false} FormatPlainText(text: string, rest: string, args: seq<string>)
    requires '{' !in text
    ensures Format(text + rest, args) == match Format(rest, args)
                                          case Some(r) => Some(text + r)
                                          case None => None
    decreases |text|
  {
    if |text| > 0 {
      assert (text + rest)[1..] == text[1..] + rest;
      FormatPlainText(text[1..], rest, args);
      match Format(rest, args)
      case Some(r) => assert [text[0]] + (text[1..] + r) == text + r;
      case None =>
    } else {
      assert text + rest == rest;
      match Format(rest, args)
      case Some(r) => assert text + r == r;
      case None =>
    }
  }

  /** A field `{d}` is replaced by the d-th argument. */
  lemma FormatField(digit: char, rest: string, args: seq<string>)
    requires IsDigit(digit) && DigitValue(digit) < |args|
    ensures Format(['{', digit, '}'] + rest, args)
         == match Format(rest, args)
            case Some(r) => Some(args[DigitValue(digit)] + r)
            case None => None
  {
    var t := ['{', digit, '}'] + rest;
    assert PlaceholderAt(t) && t[3..] == rest;
  }

  /** A template of the usage template's shape: five plain pieces around
      the fields {0}, {1}, {2}, {0}. */
  lemma {:induction false} FormatUsageShape(a: string, b: string, c: string, d: string, e: string, args: seq<string>)
    requires |args| == 3
    requires '{' !in a && '{' !in b && '{' !in c && '{' !in d && '{' !in e
    ensures Format(a + ("{0}" + (b + ("{1}" + (c + ("{2}" + (d + ("{0}" + e))))))), args)
         == Some(a + (args[0] + (b + (args[1] + (c + (args[2] + (d + (args[0] + e))))))))
  {
    FormatPlainText(e, "", args);
    assert e + "" == e;
    FormatField('0', e, args);
    FormatPlainText(d, "{0}" + e, args);
    FormatField('2', d + ("{0}" + e), args);
    FormatPlainText(c, "{2}" + (d + ("{0}" + e)), args);
    FormatField('1', c + ("{2}" + (d + ("{0}" + e))), args);
    FormatPlainText(b, "{1}" + (c + ("{2}" + (d + ("{0}" + e)))), args);
    FormatField('0', b + ("{1}" + (c + ("{2}" + (d + ("{0}" + e))))), args);
    FormatPlainText(a, "{0}" + (b + ("{1}" + (c + ("{2}" + (d + ("{0}" + e)))))), args);
  }

  /** The usage text for a program, an object name and trailing arguments. */
  function UsageText(program: string, objectName: string, trailing: string): string {
    "USAGE: " + (program + (" " + (objectName + (" " + (trailing
      + ("\nType " + (program + " -h or --help for detailed help.")))))))
  }

  /** The HELP_AND_EXIT template filled with program, object and trailing
      arguments is the usage text, the program named twice. */
  lemma UsageMessage(program: string, objectName: string, trailing: string)
    ensures Format(Template(HelpAndExit), [program, objectName, trailing]) == Some(UsageText(program, objectName, trailing))
  {
    FormatUsageShape("USAGE: ", " ", " ", "\nType ", " -h or --help for detailed help.", [program, objectName, trailing]);
  }

  /** What setError hands back: 99 for a non-flat override, SUCCESS for an
      accepted call, or the IndexError raised while formatting. */
  datatype SetErrorResult = Returned99 | ReturnedSuccess | FormatIndexError

  /** The outcome of setError(code, *args, msgOverride=...), where template
      is the code's entry in the template table. */
  function SetErrorOutcome(template: string, args: seq<string>, msgOverride: string): SetErrorResult
  {
    if '$' in msgOverride then Returned99
    else if msgOverride != "" || |args| == 0 then ReturnedSuccess
    else if Format(template, args).Some? then ReturnedSuccess
    else FormatIndexError
  }

  /** The message an accepted setError call records. */
  function RecordedMessage(template: string, args: seq<string>, msgOverride: string): string
    requires SetErrorOutcome(template, args, msgOverride) == ReturnedSuccess
  {
    if msgOverride != "" then msgOverride
    else if |args| == 0 then template
    else Format(template, args).value
  }

  /** A call succeeds when its override is flat or absent and the arguments
      cover every field of the code's template; it then records the
      override verbatim or the filled-in template, and never a message
      holding a field the arguments were meant to fill. */
  lemma {:induction false} AcceptedCalls(template: string, args: seq<string>, msgOverride: string)
    requires '$' !in msgOverride
    requires |args| > 0 ==> FieldsBelow(Placeholders(template), |args|)
    ensures SetErrorOutcome(template, args, msgOverride) == ReturnedSuccess
    ensures msgOverride != "" ==> RecordedMessage(template, args, msgOverride) == msgOverride
    ensures msgOverride == "" && |args| == 0 ==> RecordedMessage(template, args, msgOverride) == template
  {
    FormatSucceedsIff(template, args);
  }

  /** The warning setError prints when the override is not flat. */
  const FlatWarning: string := "Bad call to setError: argument \"msg\" must be flat."

  class ErrorManager {
    var errMsg: string
    var returnCode: ReturnCode

    /** returnCode keeps its initial value: setError never assigns it, and
        nothing else in the class does. */
    predicate Valid()
      reads this
    {
      returnCode == Success
    }

    constructor ()
      ensures errMsg == "" && returnCode == Success && Valid()
    {
      errMsg := "";
      returnCode := Success;
    }

    /** setError: records the override or the formatted template in errMsg;
        returnCode is never touched. A non-flat override is refused with a
        printed warning, the only thing setError prints. */
    method SetError(code: ReturnCode, args: seq<string>, msgOverride: string) returns (r: SetErrorResult, printed: seq<string>)
      modifies this`errMsg
      ensures printed == (if '$' in msgOverride then [FlatWarning] else [])
      ensures r == SetErrorOutcome(Template(code), args, msgOverride)
      ensures r == ReturnedSuccess ==> errMsg == RecordedMessage(Template(code), args, msgOverride)
      ensures r != ReturnedSuccess ==> errMsg == old(errMsg)
      ensures returnCode == old(returnCode) && (old(Valid()) ==> Valid())
    {
      printed := [];
      if '$' in msgOverride {
        printed := [FlatWarning];
        return Returned99, printed;
      }
      r := Record(Template(code), args, msgOverride);
    }

    /** setError once the override is known to be flat: the override, the
        raw template or the formatted template is recorded. */
    method Record(template: string, args: seq<string>, msgOverride: string) returns (r: SetErrorResult)
      requires '$' !in msgOverride
      modifies this`errMsg
      ensures r == SetErrorOutcome(template, args, msgOverride)
      ensures r == ReturnedSuccess ==> errMsg == RecordedMessage(template, args, msgOverride)
      ensures r != ReturnedSuccess ==> errMsg == old(errMsg)
    {
      if msgOverride != "" {
        errMsg := msgOverride;
      } else if |args| == 0 {
        errMsg := template;
      } else {
        var formatted := Format(template, args);
        if formatted.None? {
          return FormatIndexError;
        }
        errMsg := formatted.value;
      }
      return ReturnedSuccess;
    }

    /** doExit: what is written to the error stream (the given message, or
        errMsg when none is given) and the exit status. Since returnCode is
        never assigned, the status is 0 even after setError recorded an
        error, and an error message is written only with a zero status. */
    method DoExit(msg: string) returns (written: string, status: nat)
      requires Valid()
      ensures written == (if msg != "" then msg else errMsg)
      ensures status == 0
    {
      written := if msg != "" then msg else errMsg;
      status := CodeValue(returnCode);
    }
  }
}
