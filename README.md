# HelpUtils of the `args` command-line library, in Dafny

The `args` library lets a program describe its command line with annotations. `Option` covers named
options, `Argument` covers positional arguments and `Constraint` covers value checks. `HelpUtils`
prints the usage listing for such a description. It writes the following to the standard output stream:

- a `Usage: OPTIONS` line;
- one block per declared option, holding:
  - the name and its aliases;
  - a type tag;
  - the `REQUIRED` mark;
  - the enum values;
  - the description;
  - two optional NOTE lists;
  - the constraint line;
- a `Usage: ARGUMENTS` line;
- one block per positional argument, holding:
  - its name, or the `ARGUMENT` placeholder;
  - its type;
  - its index form;
  - the `REQUIRED` mark;
  - the description;
  - the constraint line.

  An argument block has no enum line and no NOTE lists. `(index: i)` is printed with no trailing
  space (HelpUtils.java:123), so a non-required argument's index runs straight into its
  description line; `Scenarios.VerboseAndInputListing` shows it.

The project has seven modules:

- `Schema` holds the inputs as values:
  - the three annotations;
  - what the reflection helpers answer about an annotated member;
  - the introspector's two lists, in the order the introspector returns them.
- `HelpUtils.HelpPrinter` is the printer. It is a class whose `out` field is the output stream.
  - Each routine of the Java class is a method with the same branches and `for` loops.
  - Each method is proved to append exactly the text a function of module `Render` describes.
- `Render` states that text as functions and proves what the format promises:
  - the type-tag priority;
  - aliases in declared order, and blocks in the order the introspector returns them;
  - the fixed order of the constraint fields;
  - the `none` fallback;
  - nothing printed without a Constraint;
  - the NOTE lines only for non-empty lists.
- `JavaText` holds the library conversions the printer relies on, and the inverse beside each:
  - `%d` of an `int` (`DecimalString`), read back by `JavaText.ParseInt`;
  - `%s` of a `boolean` (`BoolString`), read back by `Decode.DecodeBool`;
  - `Arrays.toString` of a `String[]` (`ListString`, the brackets around `Join`). `JavaText.SplitList`
    inverts `Join`, and `Decode.DecodeAllowed` strips the brackets.
- `Decode` parses a listing back. Its round-trip lemmas prove that the listing gives back every
  block, in order, with every displayed field. They hold for "plain" values, whose exact
  conditions are listed under "## Left out". Two consequences:
  - two such schemas with the same listing show the same information;
  - a Constraint whose `allowedValues` is empty has an `ignoreCase` that is never printed. The decoder's view drops it (`Decode.Shown`).
- `Scenarios` gives the listings of concrete schemas, character by character.
- `Text` and `Wrappers` hold sequence helpers and the `Option` type.

## Model

| member | source | states |
|---|---|---|
| HelpUtils.HelpPrinter.PrintHelp | src/main/java/cz/mff/dpp/args/HelpUtils.java:27-40 | The stream gains exactly `HelpText`: the options header, every option block in the order the introspector returns them, the arguments header, every argument block in the order the introspector returns them. |
| HelpUtils.HelpPrinter.PrintOptionBlocks | src/main/java/cz/mff/dpp/args/HelpUtils.java:30-32 | The options loop appends the blocks of all options, one after another, in the order given. The loop invariant covers the blocks printed so far. |
| HelpUtils.HelpPrinter.PrintArgumentBlocks | src/main/java/cz/mff/dpp/args/HelpUtils.java:35-38 | The arguments loop appends the blocks of all argument entries in the order given. |
| HelpUtils.HelpPrinter.PrintHelpForOption | src/main/java/cz/mff/dpp/args/HelpUtils.java:51-100 | The stream gains exactly the option's block `OptionText` and nothing else. |
| HelpUtils.HelpPrinter.PrintNote | src/main/java/cz/mff/dpp/args/HelpUtils.java:80-94 | The stream gains exactly `NoteText`: nothing for an empty list, otherwise the heading and then every listed name followed by a space, in order. The lemmas `Render.NoteOnlyWhenListed` and `Render.NoteNamesInOrder` state what that text is. |
| HelpUtils.HelpPrinter.PrintHelpForArgument | src/main/java/cz/mff/dpp/args/HelpUtils.java:102-135 | The stream gains exactly the argument's block `ArgumentText`. |
| HelpUtils.HelpPrinter.PrintConstraint | src/main/java/cz/mff/dpp/args/HelpUtils.java:137-174 | The stream gains exactly `ConstraintText`: nothing without a Constraint, otherwise the label, the set fields, `none` when no field is set, and a line break. |
| Render.NoConstraintPrintsNothing | src/main/java/cz/mff/dpp/args/HelpUtils.java:138-142 | The constraint part is empty exactly when no Constraint is attached. Otherwise it begins with the `constraints: ` label. |
| Render.FieldsEmptyIffUnset | src/main/java/cz/mff/dpp/args/HelpUtils.java:143-168 | No field is printed exactly when min, max, allowed values and regexp are all unset. |
| Render.UnsetConstraintPrintsNone | src/main/java/cz/mff/dpp/args/HelpUtils.java:143-172 | An attached Constraint prints exactly `\t\tconstraints: none\n` if and only if none of its four fields is set. |
| Render.ConstraintIsOneLine | src/main/java/cz/mff/dpp/args/HelpUtils.java:145-172 | An attached Constraint prints one line: it starts with the label and ends with its only line break, provided the values contain no line break. |
| Render.TypeTagPriority | src/main/java/cz/mff/dpp/args/HelpUtils.java:59-67 | The tag goes by priority: flag gives `[flag]`, then simple gives `[type]`, then array gives `[array of type]`. The tag is empty exactly when none of the three applies. |
| Render.AliasesInOrder | src/main/java/cz/mff/dpp/args/HelpUtils.java:54-57 | Alias i, the first one included, stands as `, alias ` right after the name and the aliases declared before it. |
| Render.NoteOnlyWhenListed | src/main/java/cz/mff/dpp/args/HelpUtils.java:80-94 | A NOTE is empty exactly when its list is empty. Otherwise it opens with its heading. |
| Render.NoteNamesInOrder | src/main/java/cz/mff/dpp/args/HelpUtils.java:82-93 | Name j of a NOTE list stands, followed by a space, right after the heading and the names before it. |
| Render.PlaceholderOnlyWhenUnnamed | src/main/java/cz/mff/dpp/args/HelpUtils.java:105-109 | An argument with an empty name is shown as the `ARGUMENT` placeholder, any other name as itself. So an argument named `ARGUMENT` prints like an unnamed one, and among the other names the placeholder marks exactly the unnamed arguments. |
| Render.PlaceholderAmbiguous | src/main/java/cz/mff/dpp/args/HelpUtils.java:105-109 | An unnamed argument and an argument named `ARGUMENT` print the same name. |
| Render.FlagTagAmbiguous | src/main/java/cz/mff/dpp/args/HelpUtils.java:59-63 | A flag and a simple member whose type is named `flag` get the same tag `[flag]`. |
| Render.OptionsInOrder | src/main/java/cz/mff/dpp/args/HelpUtils.java:29-32 | Option i's block stands in the listing right after the header and the blocks of the options before it in the introspector's list. |
| Render.ArgumentsInOrder | src/main/java/cz/mff/dpp/args/HelpUtils.java:34-38 | Argument i's block stands after the options part, the arguments header and the blocks of the arguments before it in the introspector's list. So the order is that list's order, not index order. |
| JavaText.DecimalRoundTrip | src/main/java/cz/mff/dpp/args/HelpUtils.java:116-123 | `%d` of any int, negative ones included, is read back as the same number when no digit follows. |
| JavaText.SplitJoin | src/main/java/cz/mff/dpp/args/HelpUtils.java:158 | A non-empty comma-free array is recovered from the inside of its `Arrays.toString` form. |
| JavaText.ListStringCommaAmbiguous | src/main/java/cz/mff/dpp/args/HelpUtils.java:158 | `Arrays.toString` prints `[a, b]` both for the one-element array `["a, b"]` and for the array `["a", "b"]`. |
| Decode.BoolRoundTrip | src/main/java/cz/mff/dpp/args/HelpUtils.java:159 | The printed ignore-case boolean is read back unchanged. |
| Decode.FieldRoundTrip | src/main/java/cz/mff/dpp/args/HelpUtils.java:147-150 | A `key=value ` field is read back as its value. An absent field reads as the empty string without consuming anything. |
| Decode.AllowedRoundTrip | src/main/java/cz/mff/dpp/args/HelpUtils.java:157-161 | The allowed-values field and its ignore-case part give back the list and the flag. An absent field gives the empty list. |
| Decode.FieldsRoundTrip | src/main/java/cz/mff/dpp/args/HelpUtils.java:147-166 | The four fields, in the order min, max, allowed values, regexp, give back the whole displayed Constraint. |
| Decode.ConstraintRoundTrip | src/main/java/cz/mff/dpp/args/HelpUtils.java:137-174 | The constraint line gives back the Constraint, `none` included. The absence of the line gives back "no Constraint". |
| Decode.AliasesRoundTrip | src/main/java/cz/mff/dpp/args/HelpUtils.java:54-57 | The alias part gives back the aliases, in order. |
| Decode.TagRoundTrip | src/main/java/cz/mff/dpp/args/HelpUtils.java:59-67 | The printed tag gives back which of flag, simple, array or none was chosen, with the type name. |
| Decode.RequiredRoundTrip | src/main/java/cz/mff/dpp/args/HelpUtils.java:69-71 | The `REQUIRED` mark is read back as true when present and false when absent. |
| Decode.EnumRoundTrip | src/main/java/cz/mff/dpp/args/HelpUtils.java:73-76 | The enum line gives back the constants exactly for an enum member. |
| Decode.DescriptionRoundTrip | src/main/java/cz/mff/dpp/args/HelpUtils.java:78 | The description line gives back the description. |
| Decode.NoteRoundTrip | src/main/java/cz/mff/dpp/args/HelpUtils.java:80-94 | A NOTE gives back its names in order. A missing NOTE gives back the empty list. |
| Decode.OptionRoundTrip | src/main/java/cz/mff/dpp/args/HelpUtils.java:51-100 | An option block gives back every displayed part of the option: name, aliases, tag, required, enum values, description, both NOTE lists and the constraint. The text after it is untouched. |
| Decode.ArgumentHeadRoundTrip | src/main/java/cz/mff/dpp/args/HelpUtils.java:105-122 | The start of an argument line gives back its name (empty for the placeholder), whether it is an array, and the type name. |
| Decode.PositionRoundTrip | src/main/java/cz/mff/dpp/args/HelpUtils.java:111-124 | The index part gives back one of `(index: i, size: s)` for an array with size > 0, `(all from index i)` for another array, or `(index: i)` for any other member, with the numbers. |
| Decode.ArgumentRoundTrip | src/main/java/cz/mff/dpp/args/HelpUtils.java:102-135 | An argument block gives back every displayed part of the argument. |
| Decode.OptionsRoundTrip | src/main/java/cz/mff/dpp/args/HelpUtils.java:30-32 | All option blocks together give back all options, in order. |
| Decode.ArgumentsRoundTrip | src/main/java/cz/mff/dpp/args/HelpUtils.java:35-38 | All argument blocks together give back all arguments, in order. |
| Decode.HelpRoundTrip | src/main/java/cz/mff/dpp/args/HelpUtils.java:27-40 | The whole listing gives back every option and every argument, in order and with everything shown about them, and nothing else. |
| Decode.HelpTextDeterminesView | src/main/java/cz/mff/dpp/args/HelpUtils.java:27-40 | Two schemas with the same listing agree on everything the listing shows. |
| Scenarios.VerboseAndInputListing | src/main/java/cz/mff/dpp/args/HelpUtils.java:27-135 | The listing, character by character, for a required flag `--verbose` without aliases or constraint, and a string argument `input` at index 0 whose Constraint sets only `min=1`. |
| Scenarios.NoteRunsIntoConstraint | src/main/java/cz/mff/dpp/args/HelpUtils.java:80-96 | A NOTE list is not ended by a line break. So a following constraint line continues the NOTE's line: `-q ` is followed directly by `\t\tconstraints: min=1 `. |

## Left out

- The reflection helpers and the introspector's discovery of annotated members are not part of this model. Their answers are inputs: the three type tests, the enum test, the value type name, the formatted enum constants and the attached Constraint.
- The enum constants come as the string the reflection helper already formatted. That formatting is not part of this model.
- `System.out` is a string field. Buffering, I/O errors and concurrent writers to the stream are not modelled.
- `out` is a sequence of Unicode characters. Java strings are UTF-16 code units and may hold lone surrogates, and `System.out` encodes with the platform charset, turning unmappable characters into `?`. The formatting does not depend on either, and neither is modelled.
- `println` ends a line with `"\n"`. The platform's line separator is not modelled.
- `printf` is modelled as appending its arguments already formatted by `DecimalString`, `BoolString` and `ListString`. The formatter's locale is ignored: `%d` gives plain ASCII digits with a leading `-`.
- Decode.HelpRoundTrip: like the other round trips, it holds only for plain values (`Decode.PlainOption`, `Decode.PlainArgument`, `Decode.PlainConstraint`). The conditions are:
  - option names, aliases and NOTE names contain no space, tab or line break;
  - argument names contain no space, tab or line break, and no argument is named `ARGUMENT`, since it prints like an unnamed one (`Render.PlaceholderAmbiguous`);
  - type names contain no space and no `]`;
  - no simple option has a type named `flag`, since it prints like a flag (`Render.FlagTagAmbiguous`);
  - descriptions and enum constants contain no line break;
  - constraint min, max and regexp contain no space, tab or line break;
  - allowed values contain no `,` (an element holding `, ` prints like two elements, `JavaText.ListStringCommaAmbiguous`) and no `]`, but may contain spaces.

  Other values can make the listing ambiguous, as the three ambiguity lemmas show.
