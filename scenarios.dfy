/** Concrete listings: a flag option beside a constrained argument, and how a NOTE and a constraint share a line. */
module Scenarios {
  import opened Wrappers
  import opened Text
  import opened JavaText
  import opened Schema
  import opened Render

  /** A required flag option "--verbose" without aliases or constraint. */
  function VerboseOption(): OptionEntry
  {
    OptionEntry(OptionDecl("--verbose", [], "Be verbose", true, [], []),
                Accessible(true, false, false, false, "boolean", "", None))
  }

  /** A string argument "input" at index 0 whose Constraint sets only min=1. */
  function InputArgument(): ArgumentEntry
  {
    ArgumentEntry(Accessible(false, true, false, false, "string", "", Some(MinOne())),
                  ArgumentDecl("input", 0, 0, false, "Input file"))
  }

  lemma VerboseOptionBlock()
    ensures OptionText(VerboseOption())
      == "\t--verbose " + "[flag]" + " REQUIRED " + "\n\t\t Be verbose \n" + "\n"
  {
    assert HeadText(VerboseOption().option) == "\t--verbose " by {
      assert ConcatMap(VerboseOption().option.aliases, AliasText) == "";
    }
  }

  lemma InputIndex()
    ensures IndexText(InputArgument().accessible, InputArgument().argument) == "(index: 0)"
  {
    assert DecimalString(0) == "0";
  }

  lemma InputConstraint()
    ensures ConstraintText(InputArgument().accessible.constraint) == "\t\tconstraints: min=1 \n"
  {
    assert FieldsText(InputArgument().accessible.constraint.value) == "min=1 ";
  }

  lemma InputArgumentBlock()
    ensures ArgumentText(InputArgument())
      == "\tinput " + "[string] " + "(index: 0)" + "\n\t\t Input file \n" + "\t\tconstraints: min=1 \n" + "\n"
  {
    InputIndex();
    InputConstraint();
  }

  /**
   * A required flag "--verbose" without aliases or constraint, and a string argument "input" at
   * index 0 whose Constraint sets only min=1: the option line "\t--verbose [flag] REQUIRED " and
   * its description, then the argument line "\tinput [string] (index: 0)", its description and
   * the constraint line.  The index is followed by no space, since nothing is printed between it
   * and the description line of a non-required argument.
   */
  lemma VerboseAndInputListing()
    ensures HelpText(Introspector([VerboseOption()], [InputArgument()]))
      == OptionsHeader
      + ("\t--verbose " + "[flag]" + " REQUIRED " + "\n\t\t Be verbose \n" + "\n")
      + ArgumentsHeader
      + ("\tinput " + "[string] " + "(index: 0)" + "\n\t\t Input file \n" + "\t\tconstraints: min=1 \n" + "\n")
  {
    VerboseOptionBlock();
    InputArgumentBlock();
    assert ConcatMap([VerboseOption()], OptionText) == OptionText(VerboseOption());
    assert ConcatMap([InputArgument()], ArgumentText) == ArgumentText(InputArgument());
  }

  /** A Constraint that sets only min=1. */
  function MinOne(): Constraint
  {
    Constraint("1", "", [], false, "")
  }

  lemma QuietNote()
    ensures NoteText(IncompatibleLabel, ["-q"]) == IncompatibleLabel + "-q "
  {
    assert ConcatMap(["-q"], WordText) == "-q ";
  }

  lemma MinOneLine()
    ensures ConstraintText(Some(MinOne())) == ConstraintLabel + "min=1 " + Eol
  {
    assert FieldsText(MinOne()) == "min=1 ";
  }

  /**
   * The NOTE lists end without a line break, so a constraint line that follows starts on the
   * NOTE's own line: "-q " is directly followed by the tabs of "constraints: ".
   */
  lemma NoteRunsIntoConstraint()
    ensures NoteText(IncompatibleLabel, ["-q"]) + ConstraintText(Some(MinOne()))
      == "\n\t\t NOTE: Cannot be used together with: -q \t\tconstraints: min=1 \n"
  {
    QuietNote();
    MinOneLine();
  }
}
