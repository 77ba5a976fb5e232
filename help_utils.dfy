/**
 * HelpUtils: the routines that print usage text for an annotated configuration object.
 * The standard output stream is the printer's `out` field; every routine appends to it and
 * is proved to append exactly the text that Render describes.
 */
module HelpUtils {
  import opened Text
  import opened JavaText
  import opened Schema
  import opened Render

  class HelpPrinter {
    /** Everything written to the standard output stream so far. */
    var out: string

    constructor ()
      ensures out == ""
    {
      out := "";
    }

    /**
     * System.out.printf with its arguments already formatted.  The ghost parameters are
     * proof bookkeeping: the stream before the calling routine began, and what that routine
     * has written since.
     */
    method Print(s: string, ghost start: string, ghost done: string)
      requires out == start + done
      modifies this
      ensures out == start + (done + s)
    {
      out := out + s;
      AppendAssoc(start, done, s);
    }

    /** System.out.println, with the same bookkeeping as Print. */
    method Println(s: string, ghost start: string, ghost done: string)
      requires out == start + done
      modifies this
      ensures out == start + (done + s + Eol)
    {
      out := out + s + Eol;
      AppendAssoc(start, done, s + Eol);
      AppendAssoc(done, s, Eol);
    }

    /** printHelp: the options header and blocks, then the arguments header and blocks. */
    method PrintHelp(introspector: Introspector)
      modifies this
      ensures out == old(out) + HelpText(introspector)
    {
      ghost var start := out;
      Println(OptionsTitle, start, "");
      EmptyAppend(OptionsTitle);
      PrintOptionBlocks(introspector.options, start, OptionsHeader);
      ghost var done := OptionsHeader + ConcatMap(introspector.options, OptionText);
      Println(ArgumentsTitle, start, done);
      PrintArgumentBlocks(introspector.arguments, start, done + ArgumentsHeader);
    }

    /** The first loop of printHelp: the block of every option, in the order given. */
    method PrintOptionBlocks(options: seq<OptionEntry>, ghost start: string, ghost done: string)
      requires out == start + done
      modifies this
      ensures out == start + (done + ConcatMap(options, OptionText))
    {
      assert options[..0] == [];
      AppendEmpty(done);
      for i := 0 to |options|
        invariant out == start + (done + ConcatMap(options[..i], OptionText))
      {
        var entry := options[i];
        PrintHelpForOption(entry.option, entry.accessible);
        ConcatMapExtend(start, done, options, i, OptionText);
      }
      assert options[..|options|] == options;
    }

    /** The second loop of printHelp: the block of every argument, in order. */
    method PrintArgumentBlocks(arguments: seq<ArgumentEntry>, ghost start: string, ghost done: string)
      requires out == start + done
      modifies this
      ensures out == start + (done + ConcatMap(arguments, ArgumentText))
    {
      assert arguments[..0] == [];
      AppendEmpty(done);
      for i := 0 to |arguments|
        invariant out == start + (done + ConcatMap(arguments[..i], ArgumentText))
      {
        var entry := arguments[i];
        PrintHelpForArgument(entry.argument, entry.accessible);
        ConcatMapExtend(start, done, arguments, i, ArgumentText);
      }
      assert arguments[..|arguments|] == arguments;
    }

    /** printHelpForOption: one option's block. */
    method PrintHelpForOption(option: OptionDecl, accessible: Accessible)
      modifies this
      ensures out == old(out) + OptionText(OptionEntry(option, accessible))
    {
      ghost var start := out;
      AppendEmpty(start);
      Print("\t" + option.name + " ", start, "");
      ghost var name := "\t" + option.name + " ";
      for j := 0 to |option.aliases|
        invariant out == start + (name + ConcatMap(option.aliases[..j], AliasText))
      {
        Print(", " + option.aliases[j] + " ", start, name + ConcatMap(option.aliases[..j], AliasText));
        ConcatMapExtend(start, name, option.aliases, j, AliasText);
      }
      assert option.aliases[..|option.aliases|] == option.aliases;
      ghost var done := HeadText(option);

      if accessible.isFlag {
        Print("[flag]", start, done);
      } else if accessible.isSimple {
        Print("[" + accessible.valueTypeName + "]", start, done);
      } else if accessible.isArray {
        Print("[array of " + accessible.valueTypeName + "]", start, done);
      } else {
        AppendEmpty(done);
      }
      done := done + TagText(OptionTag(accessible));
      if option.required {
        Print(RequiredMark, start, done);
      } else {
        AppendEmpty(done);
      }
      done := done + RequiredText(option.required);
      if accessible.isEnum {
        Print(EnumLabel + accessible.enumConstants, start, done);
      } else {
        AppendEmpty(done);
      }
      done := done + EnumText(accessible);
      Print("\n\t\t " + option.description + " \n", start, done);
      done := done + DescriptionText(option.description);

      PrintNote(IncompatibleLabel, option.incompatible, start, done);
      done := done + NoteText(IncompatibleLabel, option.incompatible);
      PrintNote(UsedWithLabel, option.mustUseWith, start, done);
      done := done + NoteText(UsedWithLabel, option.mustUseWith);
      PrintConstraint(accessible, start, done);
      done := done + ConstraintText(accessible.constraint);
      Println("", start, done);
      AppendEmpty(done);
    }

    /** One NOTE of printHelpForOption: the heading and every name with a space, if there are names. */
    method PrintNote(heading: string, names: seq<string>, ghost start: string, ghost done: string)
      requires out == start + done
      modifies this
      ensures out == start + (done + NoteText(heading, names))
    {
      if |names| > 0 {
        Print(heading, start, done);
        for k := 0 to |names|
          invariant out == start + (done + heading + ConcatMap(names[..k], WordText))
        {
          Print(names[k] + " ", start, done + heading + ConcatMap(names[..k], WordText));
          ConcatMapExtend(start, done + heading, names, k, WordText);
        }
        assert names[..|names|] == names;
        AppendAssoc(done, heading, ConcatMap(names, WordText));
      } else {
        AppendEmpty(done);
      }
    }

    /** printHelpForArgument: one argument's block. */
    method PrintHelpForArgument(argument: ArgumentDecl, accessible: Accessible)
      modifies this
      ensures out == old(out) + ArgumentText(ArgumentEntry(accessible, argument))
    {
      ghost var start := out;
      AppendEmpty(start);
      if argument.name != "" {
        Print("\t" + argument.name + " ", start, "");
      } else {
        Print("\t" + Placeholder + " ", start, "");
      }
      ghost var done := "\t" + DisplayName(argument.name) + " ";
      if accessible.isArray {
        Print("[array of " + accessible.valueTypeName + "] ", start, done);
        done := done + ArgumentTypeText(accessible);
        if argument.size > 0 {
          Print("(index: " + DecimalString(argument.index) + ", size: " + DecimalString(argument.size) + ")", start, done);
        } else {
          Print("(all from index " + DecimalString(argument.index) + ")", start, done);
        }
      } else {
        Print("[" + accessible.valueTypeName + "] ", start, done);
        done := done + ArgumentTypeText(accessible);
        Print("(index: " + DecimalString(argument.index) + ")", start, done);
      }
      done := done + IndexText(accessible, argument);
      if argument.required {
        Print(RequiredMark, start, done);
      } else {
        AppendEmpty(done);
      }
      done := done + RequiredText(argument.required);
      Print("\n\t\t " + argument.description + " \n", start, done);
      done := done + DescriptionText(argument.description);
      PrintConstraint(accessible, start, done);
      done := done + ConstraintText(accessible.constraint);
      Println("", start, done);
      AppendEmpty(done);
    }

    /** printConstraint: nothing without a Constraint, otherwise its set fields or "none". */
    method PrintConstraint(accessible: Accessible, ghost start: string, ghost done: string)
      requires out == start + done
      modifies this
      ensures out == start + (done + ConstraintText(accessible.constraint))
    {
      if accessible.constraint.None? {
        AppendEmpty(done);
        return;
      }
      var constraint := accessible.constraint.value;
      var some := false;
      Print(ConstraintLabel, start, done);
      ghost var line := done + ConstraintLabel;
      AppendEmpty(line);
      if constraint.min != "" {
        Print("min=" + constraint.min + " ", start, line);
        some := true;
      }
      ghost var fields := MinText(constraint);
      assert out == start + (line + fields) && (some <==> constraint.min != "");

      if constraint.max != "" {
        Print("max=" + constraint.max + " ", start, line + fields);
        some := true;
      } else {
        AppendEmpty(line + fields);
      }
      AppendAssoc(line, fields, MaxText(constraint));
      fields := fields + MaxText(constraint);
      assert out == start + (line + fields) && (some <==> constraint.min != "" || constraint.max != "");

      if |constraint.allowedValues| > 0 {
        var values := "allowed values=" + ListString(constraint.allowedValues) + " ";
        Print(values, start, line + fields);
        Print("(ignore case=" + BoolString(constraint.ignoreCase) + ") ", start, line + fields + values);
        AppendAssoc(line + fields, values, "(ignore case=" + BoolString(constraint.ignoreCase) + ") ");
        some := true;
      } else {
        AppendEmpty(line + fields);
      }
      AppendAssoc(line, fields, AllowedText(constraint));
      fields := fields + AllowedText(constraint);
      assert out == start + (line + fields);
      assert some <==> constraint.min != "" || constraint.max != "" || |constraint.allowedValues| > 0;

      if constraint.regexp != "" {
        Print("regexp=" + constraint.regexp + " ", start, line + fields);
        some := true;
      } else {
        AppendEmpty(line + fields);
      }
      AppendAssoc(line, fields, RegexpText(constraint));
      fields := fields + RegexpText(constraint);
      assert out == start + (line + fields);
      assert some <==> !constraint.IsUnset();

      ghost var tail := if constraint.IsUnset() then NoneText else "";
      if !some {
        Println(NoneText, start, line + fields);
      } else {
        Println("", start, line + fields);
      }
      assert out == start + (done + ConstraintLabel + fields + tail + Eol);
      assert ConstraintText(accessible.constraint) == ConstraintLabel + fields + tail + Eol;
      AppendAssoc5(done, ConstraintLabel, fields, tail, Eol);
    }
  }
}
