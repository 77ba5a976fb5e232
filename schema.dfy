/**
 * What the help printer is given: the annotations (Option, Argument, Constraint) and,
 * for each annotated member, the answers of the reflection queries about it.
 */
module Schema {
  import opened Wrappers
  import opened JavaText

  /** A Constraint annotation; an empty string or array means "not set". */
  datatype Constraint = Constraint(
    min: string,
    max: string,
    allowedValues: seq<string>,
    ignoreCase: bool,
    regexp: string)
  {
    /** None of the four displayed fields is set. */
    predicate IsUnset()
    {
      min == "" && max == "" && |allowedValues| == 0 && regexp == ""
    }
  }

  /**
   * One annotated field or method (an AccessibleObject), described by what the reflection
   * helpers answer about it: the three type tests, the enum test, the value type name,
   * the enum constants already formatted, and the attached Constraint if any.
   */
  datatype Accessible = Accessible(
    isFlag: bool,
    isSimple: bool,
    isArray: bool,
    isEnum: bool,
    valueTypeName: string,
    enumConstants: string,
    constraint: Option<Constraint>)

  /** An Option annotation. */
  datatype OptionDecl = OptionDecl(
    name: string,
    aliases: seq<string>,
    description: string,
    required: bool,
    incompatible: seq<string>,
    mustUseWith: seq<string>)

  /** An Argument annotation; a size of zero or less means "all remaining arguments". */
  datatype ArgumentDecl = ArgumentDecl(
    name: string,
    index: Int32,
    size: Int32,
    required: bool,
    description: string)

  /** A declared option together with the member it annotates. */
  datatype OptionEntry = OptionEntry(option: OptionDecl, accessible: Accessible)

  /** A declared argument together with the member it annotates (key and value of the map entry). */
  datatype ArgumentEntry = ArgumentEntry(accessible: Accessible, argument: ArgumentDecl)

  /** The catalogue the printer walks: options and arguments, in the order the introspector returns them. */
  datatype Introspector = Introspector(options: seq<OptionEntry>, arguments: seq<ArgumentEntry>)
}
