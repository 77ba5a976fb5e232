/**
 * The text HelpUtils writes, as functions of the schema.  The printer class is proved to
 * append exactly these strings; the lemmas below state what the format guarantees.
 */
module Render {
  import opened Wrappers
  import opened Text
  import opened JavaText
  import opened Schema

  /** The line terminator println writes. */
  const Eol := "\n"
  const OptionsTitle := "Usage: OPTIONS"
  const ArgumentsTitle := "Usage: ARGUMENTS"
  const OptionsHeader := OptionsTitle + Eol
  const ArgumentsHeader := ArgumentsTitle + Eol
  const RequiredMark := " REQUIRED "
  const EnumLabel := "\n\t\tAllowed values: "
  const IncompatibleLabel := "\n\t\t NOTE: Cannot be used together with: "
  const UsedWithLabel := "\n\t\t NOTE: Used together with: "
  const ConstraintLabel := "\t\tconstraints: "
  const NoneText := "none"
  /** What an argument without a name is called in the listing. */
  const Placeholder := "ARGUMENT"

  // ---------------------------------------------------------------- constraints

  /** One "key=value " field of a constraint line, shown only when the value is set. */
  function FieldText(key: string, value: string): string
  {
    if value != "" then key + value + " " else ""
  }

  function MinText(c: Constraint): string
  {
    FieldText("min=", c.min)
  }

  function MaxText(c: Constraint): string
  {
    FieldText("max=", c.max)
  }

  function AllowedText(c: Constraint): string
  {
    if |c.allowedValues| > 0 then
      ("allowed values=" + ListString(c.allowedValues) + " ") + ("(ignore case=" + BoolString(c.ignoreCase) + ") ")
    else ""
  }

  function RegexpText(c: Constraint): string
  {
    FieldText("regexp=", c.regexp)
  }

  /** The set fields, in the fixed order min, max, allowed values, regexp. */
  function FieldsText(c: Constraint): string
  {
    MinText(c) + MaxText(c) + AllowedText(c) + RegexpText(c)
  }

  /** printConstraint: nothing without a Constraint, otherwise one labelled line. */
  function ConstraintText(oc: Option<Constraint>): string
  {
    match oc
    case None => ""
    case Some(c) => ConstraintLabel + FieldsText(c) + (if c.IsUnset() then NoneText else "") + Eol
  }

  /** The fields part is empty exactly when no field is set (the source's `some` flag is false). */
  lemma FieldsEmptyIffUnset(c: Constraint)
    ensures FieldsText(c) == "" <==> c.IsUnset()
  {
    if !c.IsUnset() {
      assert |FieldsText(c)| >= |MinText(c)| + |MaxText(c)| + |AllowedText(c)| + |RegexpText(c)|;
    }
  }

  /** The constraint part is empty exactly when there is no Constraint: nothing, not even the label. */
  lemma NoConstraintPrintsNothing(oc: Option<Constraint>)
    ensures ConstraintText(oc) == "" <==> oc.None?
    ensures oc.Some? ==> ConstraintLabel <= ConstraintText(oc)
  {
  }

  /** An attached Constraint prints "none" exactly when none of its fields is set. */
  lemma UnsetConstraintPrintsNone(c: Constraint)
    ensures c.IsUnset() <==> ConstraintText(Some(c)) == "\t\tconstraints: none\n"
  {
    FieldsEmptyIffUnset(c);
  }

  /**
   * An attached Constraint is one line: the label, then the set fields each followed by a
   * space (or "none"), then the line terminator, which is its only line break when the
   * field values have none.
   */
  lemma ConstraintIsOneLine(c: Constraint)
    requires '\n' !in c.min && '\n' !in c.max && '\n' !in c.regexp
    requires NoneContain(c.allowedValues, '\n')
    ensures ConstraintLabel <= ConstraintText(Some(c))
    ensures ConstraintText(Some(c))[|ConstraintText(Some(c))| - 1] == '\n'
    ensures '\n' !in ConstraintText(Some(c))[..|ConstraintText(Some(c))| - 1]
  {
    var r := ConstraintText(Some(c));
    JoinAvoids(c.allowedValues, '\n');
    assert '\n' !in MinText(c) && '\n' !in MaxText(c) && '\n' !in RegexpText(c);
    assert '\n' !in AllowedText(c) by {
      if |c.allowedValues| > 0 {
        assert '\n' !in ListString(c.allowedValues);
        assert '\n' !in BoolString(c.ignoreCase);
      }
    }
    var line := ConstraintLabel + FieldsText(c) + (if c.IsUnset() then NoneText else "");
    assert '\n' !in line;
    assert r == line + Eol;
    assert r[..|r| - 1] == line;
  }

  // ---------------------------------------------------------------- options

  /** The bracketed type tag of an option line, chosen by the reflection answers. */
  datatype TagKind = FlagTag | ScalarTag(typeName: string) | ArrayTag(typeName: string) | NoTag

  /** The tests run in the order flag, simple, array; a member passing none gets no tag. */
  function OptionTag(m: Accessible): TagKind
  {
    if m.isFlag then FlagTag
    else if m.isSimple then ScalarTag(m.valueTypeName)
    else if m.isArray then ArrayTag(m.valueTypeName)
    else NoTag
  }

  function TagText(k: TagKind): string
  {
    match k
    case FlagTag => "[flag]"
    case ScalarTag(t) => "[" + t + "]"
    case ArrayTag(t) => "[array of " + t + "]"
    case NoTag => ""
  }

  /** A flag member is tagged "[flag]" whatever else it is; the tag is empty exactly for a member that is none of the three. */
  lemma TypeTagPriority(m: Accessible)
    ensures m.isFlag ==> TagText(OptionTag(m)) == "[flag]"
    ensures !m.isFlag && m.isSimple ==> TagText(OptionTag(m)) == "[" + m.valueTypeName + "]"
    ensures !m.isFlag && !m.isSimple && m.isArray ==> TagText(OptionTag(m)) == "[array of " + m.valueTypeName + "]"
    ensures TagText(OptionTag(m)) == "" <==> !m.isFlag && !m.isSimple && !m.isArray
  {
  }

  /** A simple member whose type is named "flag" gets the same tag as a flag. */
  lemma FlagTagAmbiguous(m: Accessible)
    requires m.isFlag
    ensures TagText(OptionTag(m)) == TagText(OptionTag(m.(isFlag := false, isSimple := true, valueTypeName := "flag")))
  {
  }

  /** Every alias, the first one included, is written as ", alias ". */
  function AliasText(alias: string): string
  {
    ", " + alias + " "
  }

  /** The start of an option line: tab, name, space, then the aliases in declared order. */
  function HeadText(o: OptionDecl): string
  {
    "\t" + o.name + " " + ConcatMap(o.aliases, AliasText)
  }

  function RequiredText(required: bool): string
  {
    if required then RequiredMark else ""
  }

  function EnumText(m: Accessible): string
  {
    if m.isEnum then EnumLabel + m.enumConstants else ""
  }

  /** The description on a line of its own, between two spaces. */
  function DescriptionText(description: string): string
  {
    "\n\t\t " + description + " \n"
  }

  /** A name in a NOTE list, followed by a space. */
  function WordText(w: string): string
  {
    w + " "
  }

  /** A NOTE with its names, only when there are names. */
  function NoteText(heading: string, names: seq<string>): string
  {
    if |names| > 0 then heading + ConcatMap(names, WordText) else ""
  }

  /** A NOTE appears exactly when its list has names, and then opens with its heading. */
  lemma NoteOnlyWhenListed(heading: string, names: seq<string>)
    requires heading != ""
    ensures NoteText(heading, names) == "" <==> |names| == 0
    ensures |names| > 0 ==> heading <= NoteText(heading, names)
  {
    if |names| > 0 {
      assert |NoteText(heading, names)| >= |heading|;
    }
  }

  /** Name j of a NOTE list stands, followed by a space, after the heading and the names before it. */
  lemma NoteNamesInOrder(heading: string, names: seq<string>, j: nat)
    requires j < |names|
    ensures BlockAt(NoteText(heading, names), |heading| + |ConcatMap(names[..j], WordText)|, names[j] + " ")
  {
    ConcatMapAtIn(heading, names, "", j, WordText, |heading| + |ConcatMap(names[..j], WordText)|, WordText(names[j]));
    AppendEmpty(NoteText(heading, names));
  }

  /** printHelpForOption. */
  function OptionText(e: OptionEntry): string
  {
    var o, m := e.option, e.accessible;
    HeadText(o) + TagText(OptionTag(m)) + RequiredText(o.required) + EnumText(m)
      + DescriptionText(o.description)
      + NoteText(IncompatibleLabel, o.incompatible) + NoteText(UsedWithLabel, o.mustUseWith)
      + ConstraintText(m.constraint) + Eol
  }

  /** Alias i of an option stands, as ", alias ", right after the name and the aliases before it. */
  lemma AliasesInOrder(o: OptionDecl, i: nat)
    requires i < |o.aliases|
    ensures BlockAt(HeadText(o), AliasOffset(o, i), ", " + o.aliases[i] + " ")
  {
    ConcatMapAtIn("\t" + o.name + " ", o.aliases, "", i, AliasText, AliasOffset(o, i), AliasText(o.aliases[i]));
    assert HeadText(o) + "" == HeadText(o);
  }

  /** Where alias i starts in an option line: after tab, name, space and the earlier aliases. */
  function AliasOffset(o: OptionDecl, i: nat): nat
    requires i <= |o.aliases|
  {
    |o.name| + 2 + |ConcatMap(o.aliases[..i], AliasText)|
  }

  // ---------------------------------------------------------------- arguments

  /** The name shown for an argument: its own, or the placeholder when it has none. */
  function DisplayName(name: string): (r: string)
    ensures r != ""
  {
    if name != "" then name else Placeholder
  }

  /**
   * An unnamed argument is shown as the placeholder and any other as its own name; the
   * placeholder therefore marks exactly the unnamed arguments among those not named "ARGUMENT".
   */
  lemma PlaceholderOnlyWhenUnnamed(name: string)
    ensures name == "" ==> DisplayName(name) == Placeholder
    ensures name != "" ==> DisplayName(name) == name
    ensures name != Placeholder ==> (DisplayName(name) == Placeholder <==> name == "")
  {
  }

  /** An argument named "ARGUMENT" is printed exactly like an unnamed one. */
  lemma PlaceholderAmbiguous()
    ensures DisplayName("") == DisplayName(Placeholder) == Placeholder
  {
  }

  /** Arguments get an array tag or a plain tag, each followed by a space; no flag tag. */
  function ArgumentTypeText(m: Accessible): string
  {
    if m.isArray then "[array of " + m.valueTypeName + "] " else "[" + m.valueTypeName + "] "
  }

  /** Where an argument sits on the command line, in one of three forms. */
  function IndexText(m: Accessible, a: ArgumentDecl): string
  {
    if m.isArray then
      if a.size > 0 then "(index: " + DecimalString(a.index) + ", size: " + DecimalString(a.size) + ")"
      else "(all from index " + DecimalString(a.index) + ")"
    else "(index: " + DecimalString(a.index) + ")"
  }

  /** printHelpForArgument. */
  function ArgumentText(e: ArgumentEntry): string
  {
    var m, a := e.accessible, e.argument;
    "\t" + DisplayName(a.name) + " " + ArgumentTypeText(m) + IndexText(m, a) + RequiredText(a.required)
      + DescriptionText(a.description) + ConstraintText(m.constraint) + Eol
  }

  // ---------------------------------------------------------------- the whole listing

  /** printHelp: the options header, every option block, the arguments header, every argument block. */
  function HelpText(intro: Introspector): string
  {
    OptionsHeader + ConcatMap(intro.options, OptionText)
      + ArgumentsHeader + ConcatMap(intro.arguments, ArgumentText)
  }

  /** Option i's block follows the header and the blocks of the options before it in the list. */
  lemma OptionsInOrder(intro: Introspector, i: nat)
    requires i < |intro.options|
    ensures BlockAt(HelpText(intro), OptionOffset(intro, i), OptionText(intro.options[i]))
  {
    FirstListAt(OptionsHeader, intro.options, OptionText, ArgumentsHeader, intro.arguments, ArgumentText, i,
      HelpText(intro), OptionOffset(intro, i), OptionText(intro.options[i]));
  }

  /** Where option i's block starts: after the header and the blocks of options 0 .. i - 1. */
  function OptionOffset(intro: Introspector, i: nat): nat
    requires i <= |intro.options|
  {
    |OptionsHeader| + |ConcatMap(intro.options[..i], OptionText)|
  }

  /**
   * Argument i's block follows the options, the arguments header and the blocks of the
   * arguments before it: arguments are listed in the introspector's order, not index order.
   */
  lemma ArgumentsInOrder(intro: Introspector, i: nat)
    requires i < |intro.arguments|
    ensures BlockAt(HelpText(intro), ArgumentOffset(intro, i), ArgumentText(intro.arguments[i]))
  {
    SecondListAt(OptionsHeader, intro.options, OptionText, ArgumentsHeader, intro.arguments, ArgumentText, i,
      HelpText(intro), ArgumentOffset(intro, i), ArgumentText(intro.arguments[i]));
  }

  /**
   * Where argument i's block starts: after the options part, the arguments header and the
   * blocks of arguments 0 .. i - 1.
   */
  function ArgumentOffset(intro: Introspector, i: nat): nat
    requires i <= |intro.arguments|
  {
    |OptionsHeader| + |ConcatMap(intro.options, OptionText)| + |ArgumentsHeader|
      + |ConcatMap(intro.arguments[..i], ArgumentText)|
  }
}
