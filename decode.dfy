/**
 * Reading the listing back.  Each decoder undoes one piece of Render, and its round-trip
 * lemma shows that the piece loses nothing a reader needs when the printed values are
 * plain (no separator characters inside them).  Together they show that the whole listing
 * determines what was declared, up to what the format does not show.
 */
module Decode {
  import opened Wrappers
  import opened Text
  import opened JavaText
  import opened Schema
  import opened Render

  /** A value printed with %s and followed by a space: no blank, tab or line break in it. */
  predicate Word(s: string)
  {
    Avoids(s, {' ', '\t', '\n'})
  }

  lemma WordHasNoSpace(s: string)
    requires Word(s)
    ensures ' ' !in s
  {
    forall i | 0 <= i < |s|
      ensures s[i] != ' '
    {
    }
  }

  /** p is not a prefix of s because they differ at position i. */
  lemma Mismatch(p: string, s: string, i: nat)
    requires i < |p| && i < |s| && p[i] != s[i]
    ensures !(p <= s)
  {
  }

  // ---------------------------------------------------------------- constraints

  /** Constraint values the line can carry unambiguously. */
  predicate PlainConstraint(c: Constraint)
  {
    Word(c.min) && Word(c.max) && Word(c.regexp)
      && NoneContain(c.allowedValues, ',') && NoneContain(c.allowedValues, ']')
  }

  /** What a constraint line shows of c: ignoreCase is printed only beside allowed values. */
  function Shown(c: Constraint): (r: Constraint)
    ensures r.IsUnset() <==> c.IsUnset()
    ensures |r.allowedValues| > 0 ==> r == c
  {
    if |c.allowedValues| > 0 then c else c.(ignoreCase := false)
  }

  function ShownConstraint(oc: Option<Constraint>): Option<Constraint>
  {
    match oc
    case None => None
    case Some(c) => Some(Shown(c))
  }

  /** Reads "key=value " when the text starts with key, otherwise an unset (empty) value. */
  function DecodeField(key: string, s: string): (r: Option<Parsed<string>>)
    ensures r.Some? ==> |r.value.rest| <= |s|
  {
    if key <= s then Token(s[|key|..]) else Some(Parsed("", s))
  }

  lemma FieldRoundTrip(key: string, v: string, t: string)
    requires Word(v)
    requires v == "" ==> !(key <= t)
    ensures DecodeField(key, FieldText(key, v) + t) == Some(Parsed(v, t))
  {
    if v != "" {
      WordHasNoSpace(v);
      var s := FieldText(key, v) + t;
      assert s == key + (v + (" " + t)) by {
        AppendAssoc(key, v, " ");
        AppendAssoc(key + v, " ", t);
        AppendAssoc(key, v, " " + t);
      }
      assert s[|key|..] == v + (" " + t);
      TokenConcat(v, t);
    } else {
      EmptyAppend(t);
    }
  }

  /** Boolean.toString read back. */
  function DecodeBool(s: string): (r: Option<Parsed<bool>>)
  {
    if "true" <= s then Some(Parsed(true, s[4..]))
    else if "false" <= s then Some(Parsed(false, s[5..]))
    else None
  }

  lemma BoolRoundTrip(b: bool, t: string)
    ensures DecodeBool(BoolString(b) + t) == Some(Parsed(b, t))
  {
    if b {
      assert ("true" + t)[..4] == "true";
      assert ("true" + t)[4..] == t;
    } else {
      Mismatch("true", "false" + t, 0);
      assert ("false" + t)[..5] == "false";
      assert ("false" + t)[5..] == t;
    }
  }

  /** Reads "allowed values=[a, b] (ignore case=x) ", or nothing when the field is absent. */
  function DecodeAllowed(s: string): (r: Option<Parsed<(seq<string>, bool)>>)
    ensures r.Some? ==> |r.value.rest| <= |s|
  {
    if "allowed values=" <= s then
      var a := s[|"allowed values="|..];
      var b :- Strip(a, "[");
      var items := Break(b, ']');
      var c :- Strip(items.rest, "]");
      var d :- Strip(c, " ");
      var e :- Strip(d, "(ignore case=");
      var flag :- DecodeBool(e);
      var f :- Strip(flag.rest, ") ");
      Some(Parsed((SplitList(items.value), flag.value), f))
    else Some(Parsed(([], false), s))
  }

  lemma AllowedRoundTrip(c: Constraint, t: string)
    requires NoneContain(c.allowedValues, ',') && NoneContain(c.allowedValues, ']')
    requires |c.allowedValues| == 0 ==> !("allowed values=" <= t)
    ensures DecodeAllowed(AllowedText(c) + t) == Some(Parsed((Shown(c).allowedValues, Shown(c).ignoreCase), t))
  {
    var xs := c.allowedValues;
    if |xs| > 0 {
      var j, bs := Join(xs), BoolString(c.ignoreCase);
      var f := ") " + t;
      var e := bs + f;
      var d := "(ignore case=" + e;
      var cc := " " + d;
      var rest := "]" + cc;
      var b := j + rest;
      var a := "[" + b;
      var s := AllowedText(c) + t;
      assert s == "allowed values=" + a by {
        assert ListString(xs) == "[" + j + "]";
        AppendAssoc("(ignore case=", bs, ") ");
        AppendAssoc("(ignore case=" + bs, ") ", t);
        AppendAssoc("(ignore case=", bs, f);
        AppendAssoc("allowed values=" + ListString(xs) + " ", "(ignore case=" + bs + ") ", t);
        AppendAssoc("allowed values=" + ListString(xs), " ", d);
        AppendAssoc("allowed values=", ListString(xs), cc);
        AppendAssoc("[" + j, "]", cc);
        AppendAssoc("[", j, rest);
      }
      StripConcat("allowed values=", a);
      StripConcat("[", b);
      JoinAvoids(xs, ']');
      BreakConcat(j, rest, ']');
      StripConcat("]", cc);
      StripConcat(" ", d);
      StripConcat("(ignore case=", e);
      BoolRoundTrip(c.ignoreCase, f);
      StripConcat(") ", t);
      SplitJoin(xs);
    } else {
      EmptyAppend(t);
    }
  }

  /** The four fields, each read only if its key comes next. */
  function DecodeFields(s: string): (r: Option<Parsed<Constraint>>)
    ensures r.Some? ==> |r.value.rest| <= |s|
  {
    var min :- DecodeField("min=", s);
    var max :- DecodeField("max=", min.rest);
    var allowed :- DecodeAllowed(max.rest);
    var regexp :- DecodeField("regexp=", allowed.rest);
    Some(Parsed(Constraint(min.value, max.value, allowed.value.0, allowed.value.1, regexp.value), regexp.rest))
  }

  /** What can follow the fields: "none", the line terminator, or nothing. */
  predicate FieldsEnd(t: string)
  {
    t == [] || t[0] == 'n' || t[0] == '\n'
  }

  lemma FieldsEndHasNoKey(key: string, t: string)
    requires FieldsEnd(t) && |key| > 0 && key[0] != 'n' && key[0] != '\n'
    ensures !(key <= t)
  {
    if |t| > 0 {
      Mismatch(key, t, 0);
    }
  }

  /** A key that differs from key2 (at position i) cannot start the text of field key2 and what follows. */
  lemma NoKeyBeforeField(key: string, key2: string, v: string, t: string, i: nat)
    requires i < |key| && i < |key2| && key[i] != key2[i]
    requires !(key <= t)
    ensures !(key <= FieldText(key2, v) + t)
  {
    if v != "" {
      var s := key2 + v + " " + t;
      assert s[i] == key2[i];
      Mismatch(key, s, i);
    } else {
      EmptyAppend(t);
    }
  }

  lemma NoKeyBeforeAllowed(key: string, c: Constraint, t: string)
    requires |key| > 0 && key[0] != 'a'
    requires !(key <= t)
    ensures !(key <= AllowedText(c) + t)
  {
    if |c.allowedValues| > 0 {
      var s := AllowedText(c) + t;
      Mismatch(key, s, 0);
    } else {
      EmptyAppend(t);
    }
  }

  lemma FieldsRoundTrip(c: Constraint, t: string)
    requires PlainConstraint(c)
    requires FieldsEnd(t)
    ensures DecodeFields(FieldsText(c) + t) == Some(Parsed(Shown(c), t))
  {
    var t3 := RegexpText(c) + t;
    var t2 := AllowedText(c) + t3;
    var t1 := MaxText(c) + t2;
    assert FieldsText(c) + t == MinText(c) + t1 by {
      AppendAssoc(MinText(c) + MaxText(c) + AllowedText(c), RegexpText(c), t);
      AppendAssoc(MinText(c) + MaxText(c), AllowedText(c), t3);
      AppendAssoc(MinText(c), MaxText(c), t2);
    }
    FieldsEndHasNoKey("regexp=", t);
    FieldsEndHasNoKey("allowed values=", t);
    FieldsEndHasNoKey("max=", t);
    FieldsEndHasNoKey("min=", t);
    NoKeyBeforeField("allowed values=", "regexp=", c.regexp, t, 0);
    NoKeyBeforeField("max=", "regexp=", c.regexp, t, 0);
    NoKeyBeforeField("min=", "regexp=", c.regexp, t, 0);
    NoKeyBeforeAllowed("max=", c, t3);
    NoKeyBeforeAllowed("min=", c, t3);
    NoKeyBeforeField("min=", "max=", c.max, t2, 1);
    FieldRoundTrip("min=", c.min, t1);
    FieldRoundTrip("max=", c.max, t2);
    AllowedRoundTrip(c, t3);
    FieldRoundTrip("regexp=", c.regexp, t);
  }

  /** printConstraint read back: no label means no Constraint. */
  function DecodeConstraint(s: string): (r: Option<Parsed<Option<Constraint>>>)
    ensures r.Some? ==> |r.value.rest| <= |s|
  {
    if !(ConstraintLabel <= s) then Some(Parsed(None, s))
    else
      var fields :- DecodeFields(s[|ConstraintLabel|..]);
      var c := fields.value;
      var rest :- Strip(fields.rest, if c.IsUnset() then NoneText else "");
      var end :- Strip(rest, Eol);
      Some(Parsed(Some(c), end))
  }

  /**
   * The constraint line gives back the Constraint as shown: every field, and ignoreCase
   * beside allowed values; no line at all gives back no Constraint.
   */
  lemma ConstraintRoundTrip(oc: Option<Constraint>, t: string)
    requires oc.Some? ==> PlainConstraint(oc.value)
    requires oc.None? ==> !(ConstraintLabel <= t)
    ensures DecodeConstraint(ConstraintText(oc) + t) == Some(Parsed(ShownConstraint(oc), t))
  {
    if oc.None? {
      EmptyAppend(t);
    } else {
      var c := oc.value;
      var tail := if c.IsUnset() then NoneText else "";
      var afterFields := tail + (Eol + t);
      var s := ConstraintText(oc) + t;
      assert s == ConstraintLabel + (FieldsText(c) + afterFields) by {
        AppendAssoc(ConstraintLabel + FieldsText(c) + tail, Eol, t);
        AppendAssoc(ConstraintLabel + FieldsText(c), tail, Eol + t);
        AppendAssoc(ConstraintLabel, FieldsText(c), afterFields);
      }
      StripConcat(ConstraintLabel, FieldsText(c) + afterFields);
      assert FieldsEnd(afterFields) by {
        if !c.IsUnset() { EmptyAppend(Eol + t); }
      }
      FieldsRoundTrip(c, afterFields);
      StripConcat(tail, Eol + t);
      StripConcat(Eol, t);
    }
  }

  // ---------------------------------------------------------------- lists of names

  predicate AllWords(xs: seq<string>)
  {
    forall i :: 0 <= i < |xs| ==> Word(xs[i])
  }

  /** Aliases read back: ", alias " as long as the text starts with ", ". */
  function DecodeAliases(s: string): (r: Option<Parsed<seq<string>>>)
    ensures r.Some? ==> |r.value.rest| <= |s|
    decreases |s|
  {
    if ", " <= s then
      var alias :- Token(s[2..]);
      var more :- DecodeAliases(alias.rest);
      Some(Parsed([alias.value] + more.value, more.rest))
    else Some(Parsed([], s))
  }

  lemma {:induction false} AliasesRoundTrip(aliases: seq<string>, t: string)
    requires AllWords(aliases)
    requires !(", " <= t)
    ensures DecodeAliases(ConcatMap(aliases, AliasText) + t) == Some(Parsed(aliases, t))
  {
    if |aliases| == 0 {
      EmptyAppend(t);
    } else {
      var a := aliases[0];
      var rest := ConcatMap(aliases[1..], AliasText) + t;
      var s := ConcatMap(aliases, AliasText) + t;
      assert s == ", " + (a + (" " + rest)) by {
        AppendAssoc(AliasText(a), ConcatMap(aliases[1..], AliasText), t);
        AppendAssoc(", " + a, " ", rest);
        AppendAssoc(", ", a, " " + rest);
      }
      assert s[2..] == a + (" " + rest);
      WordHasNoSpace(a);
      TokenConcat(a, rest);
      assert AllWords(aliases[1..]) by {
        forall i | 0 <= i < |aliases[1..]| ensures Word(aliases[1..][i]) {
          assert aliases[1..][i] == aliases[i + 1];
        }
      }
      AliasesRoundTrip(aliases[1..], t);
      assert [a] + aliases[1..] == aliases;
    }
  }

  /** Where a list of NOTE names ends: at a line break, a tab, or the end of the text. */
  predicate WordsEnd(t: string)
  {
    t == [] || t[0] == '\n' || t[0] == '\t'
  }

  /** Space-terminated names up to the next line break or tab. */
  function ParseWords(s: string): (r: Option<Parsed<seq<string>>>)
    ensures r.Some? ==> |r.value.rest| <= |s|
    decreases |s|
  {
    if WordsEnd(s) then Some(Parsed([], s))
    else
      var w :- Token(s);
      var more :- ParseWords(w.rest);
      Some(Parsed([w.value] + more.value, more.rest))
  }

  lemma {:induction false} WordsRoundTrip(names: seq<string>, t: string)
    requires AllWords(names)
    requires WordsEnd(t)
    ensures ParseWords(ConcatMap(names, WordText) + t) == Some(Parsed(names, t))
  {
    if |names| == 0 {
      EmptyAppend(t);
    } else {
      var w := names[0];
      var rest := ConcatMap(names[1..], WordText) + t;
      var s := ConcatMap(names, WordText) + t;
      assert s == w + (" " + rest) by {
        AppendAssoc(WordText(w), ConcatMap(names[1..], WordText), t);
        AppendAssoc(w, " ", rest);
      }
      assert !WordsEnd(s) by {
        if |w| > 0 {
          assert s[0] == w[0];
        } else {
          assert s[0] == ' ';
        }
      }
      WordHasNoSpace(w);
      TokenConcat(w, rest);
      assert AllWords(names[1..]) by {
        forall i | 0 <= i < |names[1..]| ensures Word(names[1..][i]) {
          assert names[1..][i] == names[i + 1];
        }
      }
      WordsRoundTrip(names[1..], t);
      assert [w] + names[1..] == names;
    }
  }

  /** One NOTE: its heading, then the names, when the heading comes next. */
  function DecodeNote(heading: string, s: string): (r: Option<Parsed<seq<string>>>)
    ensures r.Some? ==> |r.value.rest| <= |s|
  {
    if heading <= s then ParseWords(s[|heading|..]) else Some(Parsed([], s))
  }

  lemma NoteRoundTrip(heading: string, names: seq<string>, t: string)
    requires AllWords(names)
    requires WordsEnd(t)
    requires |names| == 0 ==> !(heading <= t)
    ensures DecodeNote(heading, NoteText(heading, names) + t) == Some(Parsed(names, t))
  {
    if |names| > 0 {
      var s := NoteText(heading, names) + t;
      AppendAssoc(heading, ConcatMap(names, WordText), t);
      StripConcat(heading, ConcatMap(names, WordText) + t);
      WordsRoundTrip(names, t);
    } else {
      EmptyAppend(t);
    }
  }

  // ---------------------------------------------------------------- pieces of a block

  /** A type name that reads back unambiguously inside brackets. */
  predicate TypeName(n: string)
  {
    Avoids(n, {' ', ']'})
  }

  /** A tag that reads back as itself: a scalar type named "flag" would read as the flag tag. */
  predicate PlainTag(k: TagKind)
  {
    match k
    case FlagTag => true
    case ScalarTag(n) => TypeName(n) && n != "flag"
    case ArrayTag(n) => TypeName(n)
    case NoTag => true
  }

  lemma TypeNameHasNo(n: string, c: char)
    requires TypeName(n) && (c == ' ' || c == ']')
    ensures c !in n
  {
    forall i | 0 <= i < |n|
      ensures n[i] != c
    {
    }
  }

  /** The bracketed type of an option line, or no tag. */
  function DecodeTag(s: string): (r: Option<Parsed<TagKind>>)
    ensures r.Some? ==> |r.value.rest| <= |s|
  {
    if "[flag]" <= s then Some(Parsed(FlagTag, s[6..]))
    else if "[array of " <= s then
      var b := Break(s[10..], ']');
      var rest :- Strip(b.rest, "]");
      Some(Parsed(ArrayTag(b.value), rest))
    else if "[" <= s then
      var b := Break(s[1..], ']');
      var rest :- Strip(b.rest, "]");
      Some(Parsed(ScalarTag(b.value), rest))
    else Some(Parsed(NoTag, s))
  }

  /** "[" + n + "]" does not start like an array tag, since n has no space. */
  lemma ScalarIsNoArray(n: string, t: string)
    requires TypeName(n)
    ensures !("[array of " <= "[" + n + "]" + t)
  {
    var s := "[" + n + "]" + t;
    TypeNameHasNo(n, ' ');
    if |n| >= 6 {
      assert s[6] == n[5];
      Mismatch("[array of ", s, 6);
    } else {
      assert s[|n| + 1] == ']';
      Mismatch("[array of ", s, |n| + 1);
    }
  }

  /** "[" + n + "]" starts neither like the flag tag nor like an array tag. */
  lemma ScalarTagIsNoOther(n: string, t: string)
    requires TypeName(n) && n != "flag"
    ensures !("[flag]" <= "[" + n + "]" + t)
    ensures !("[array of " <= "[" + n + "]" + t)
  {
    var s := "[" + n + "]" + t;
    TypeNameHasNo(n, ']');
    if |n| >= 5 {
      assert s[5] == n[4];
      Mismatch("[flag]", s, 5);
    } else if |n| == 4 {
      assert s[1..5] == n;
      assert "[flag]"[1..5] == "flag";
    } else {
      assert s[|n| + 1] == ']';
      Mismatch("[flag]", s, |n| + 1);
    }
    ScalarIsNoArray(n, t);
  }

  lemma TagRoundTrip(k: TagKind, t: string)
    requires PlainTag(k)
    requires k == NoTag ==> !("[" <= t)
    ensures DecodeTag(TagText(k) + t) == Some(Parsed(k, t))
  {
    var s := TagText(k) + t;
    match k
    case FlagTag =>
      assert s[..6] == "[flag]";
      assert s[6..] == t;
    case ArrayTag(n) =>
      TypeNameHasNo(n, ']');
      assert s == "[array of " + (n + ("]" + t)) by {
        AppendAssoc("[array of " + n, "]", t);
        AppendAssoc("[array of ", n, "]" + t);
      }
      Mismatch("[flag]", s, 1);
      assert s[10..] == n + ("]" + t);
      BreakConcat(n, "]" + t, ']');
      StripConcat("]", t);
    case ScalarTag(n) =>
      TypeNameHasNo(n, ']');
      ScalarTagIsNoOther(n, t);
      assert s == "[" + (n + ("]" + t)) by {
        AppendAssoc("[" + n, "]", t);
        AppendAssoc("[", n, "]" + t);
      }
      assert s[1..] == n + ("]" + t);
      BreakConcat(n, "]" + t, ']');
      StripConcat("]", t);
    case NoTag =>
      EmptyAppend(t);
      if |t| > 0 {
        Mismatch("[flag]", t, 0);
        Mismatch("[array of ", t, 0);
      }
  }

  /** The " REQUIRED " mark. */
  function DecodeRequired(s: string): (r: Parsed<bool>)
    ensures |r.rest| <= |s|
  {
    if RequiredMark <= s then Parsed(true, s[|RequiredMark|..]) else Parsed(false, s)
  }

  lemma RequiredRoundTrip(required: bool, t: string)
    requires !required ==> !(RequiredMark <= t)
    ensures DecodeRequired(RequiredText(required) + t) == Parsed(required, t)
  {
    if required {
      StripConcat(RequiredMark, t);
    } else {
      EmptyAppend(t);
    }
  }

  /** The enum constants line of an option, up to the line break that starts the description. */
  function DecodeEnum(s: string): (r: Parsed<Option<string>>)
    ensures |r.rest| <= |s|
  {
    if EnumLabel <= s then
      var b := Break(s[|EnumLabel|..], '\n');
      Parsed(Some(b.value), b.rest)
    else Parsed(None, s)
  }

  /** An enum line is read back whole when its constants hold no line break and a line break follows. */
  lemma EnumRoundTrip(m: Accessible, t: string)
    requires m.isEnum ==> '\n' !in m.enumConstants
    requires |t| > 0 && t[0] == '\n'
    requires !m.isEnum ==> !(EnumLabel <= t)
    ensures DecodeEnum(EnumText(m) + t) == Parsed(if m.isEnum then Some(m.enumConstants) else None, t)
  {
    if m.isEnum {
      AppendAssoc(EnumLabel, m.enumConstants, t);
      StripConcat(EnumLabel, m.enumConstants + t);
      BreakConcat(m.enumConstants, t, '\n');
    } else {
      EmptyAppend(t);
    }
  }

  /** The description line: "\n\t\t ", the text, " \n". */
  function DecodeDescription(s: string): (r: Option<Parsed<string>>)
    ensures r.Some? ==> |r.value.rest| <= |s|
  {
    var a :- Strip(s, "\n\t\t ");
    var b := Break(a, '\n');
    if |b.value| > 0 && b.value[|b.value| - 1] == ' ' then
      var rest :- Strip(b.rest, "\n");
      Some(Parsed(b.value[..|b.value| - 1], rest))
    else None
  }

  /** A description line, and whatever follows, starts with a line break, two tabs and a space. */
  lemma DescriptionStarts(d: string, t: string)
    ensures DescriptionText(d) + t == "\n\t\t " + (d + (" \n" + t))
  {
    AppendAssoc("\n\t\t " + d, " \n", t);
    AppendAssoc("\n\t\t ", d, " \n" + t);
  }

  lemma DescriptionRoundTrip(d: string, t: string)
    requires '\n' !in d
    ensures DecodeDescription(DescriptionText(d) + t) == Some(Parsed(d, t))
  {
    var s := DescriptionText(d) + t;
    assert s == "\n\t\t " + ((d + " ") + ("\n" + t)) by {
      assert "\n\t\t " + d + " \n" == "\n\t\t " + (d + " ") + "\n";
      AppendAssoc("\n\t\t " + (d + " "), "\n", t);
      AppendAssoc("\n\t\t ", d + " ", "\n" + t);
    }
    StripConcat("\n\t\t ", (d + " ") + ("\n" + t));
    BreakConcat(d + " ", "\n" + t, '\n');
    assert (d + " ")[..|d|] == d;
    StripConcat("\n", t);
  }

  // ---------------------------------------------------------------- option blocks

  /** What an option block shows: everything but the reflection answers that are not printed. */
  datatype OptionView = OptionView(
    name: string,
    aliases: seq<string>,
    tag: TagKind,
    required: bool,
    enumConstants: Option<string>,
    description: string,
    incompatible: seq<string>,
    mustUseWith: seq<string>,
    constraint: Option<Constraint>)

  function ViewOfOption(e: OptionEntry): OptionView
  {
    var o, m := e.option, e.accessible;
    OptionView(o.name, o.aliases, OptionTag(m), o.required,
      if m.isEnum then Some(m.enumConstants) else None,
      o.description, o.incompatible, o.mustUseWith, ShownConstraint(m.constraint))
  }

  /** Option values that contain none of the characters the block uses as separators. */
  predicate PlainOption(e: OptionEntry)
  {
    var o, m := e.option, e.accessible;
    Word(o.name) && AllWords(o.aliases) && PlainTag(OptionTag(m))
      && (m.isEnum ==> '\n' !in m.enumConstants)
      && '\n' !in o.description
      && AllWords(o.incompatible) && AllWords(o.mustUseWith)
      && (m.constraint.Some? ==> PlainConstraint(m.constraint.value))
  }

  /** What may follow a block: anything but a line starting with two tabs (a NOTE or constraint line). */
  predicate BlockFollows(t: string)
  {
    !("\t\t" <= t)
  }

  /** The start of an option line: tab, name, aliases and the type tag. */
  function DecodeOptionHead(s: string): (r: Option<Parsed<(string, seq<string>, TagKind)>>)
    ensures r.Some? ==> |r.value.rest| < |s|
  {
    var a :- Strip(s, "\t");
    var name :- Token(a);
    var aliases :- DecodeAliases(name.rest);
    var tag :- DecodeTag(aliases.rest);
    Some(Parsed((name.value, aliases.value, tag.value), tag.rest))
  }

  /** The REQUIRED mark, the enum line and the description. */
  function DecodeOptionBody(s: string): (r: Option<Parsed<(bool, Option<string>, string)>>)
    ensures r.Some? ==> |r.value.rest| <= |s|
  {
    var required := DecodeRequired(s);
    var constants := DecodeEnum(required.rest);
    var description :- DecodeDescription(constants.rest);
    Some(Parsed((required.value, constants.value, description.value), description.rest))
  }

  /** The two NOTE lists, the constraint line and the blank line that ends a block. */
  function DecodeBlockEnd(s: string): (r: Option<Parsed<(seq<string>, seq<string>, Option<Constraint>)>>)
    ensures r.Some? ==> |r.value.rest| <= |s|
  {
    var incompatible :- DecodeNote(IncompatibleLabel, s);
    var usedWith :- DecodeNote(UsedWithLabel, incompatible.rest);
    var constraint :- DecodeConstraint(usedWith.rest);
    var end :- Strip(constraint.rest, Eol);
    Some(Parsed((incompatible.value, usedWith.value, constraint.value), end))
  }

  /** printHelpForOption read back. */
  function DecodeOption(s: string): (r: Option<Parsed<OptionView>>)
    ensures r.Some? ==> |r.value.rest| < |s|
  {
    var head :- DecodeOptionHead(s);
    var body :- DecodeOptionBody(head.rest);
    var end :- DecodeBlockEnd(body.rest);
    Some(Parsed(OptionView(head.value.0, head.value.1, head.value.2, body.value.0, body.value.1, body.value.2,
      end.value.0, end.value.1, end.value.2), end.rest))
  }

  /** An option block followed by t, regrouped piece by piece from the right. */
  lemma OptionTextSplit(e: OptionEntry, t: string)
    ensures OptionText(e) + t == "\t" + (e.option.name + (" " + (ConcatMap(e.option.aliases, AliasText)
      + (TagText(OptionTag(e.accessible)) + (RequiredText(e.option.required) + (EnumText(e.accessible)
      + (DescriptionText(e.option.description) + (NoteText(IncompatibleLabel, e.option.incompatible)
      + (NoteText(UsedWithLabel, e.option.mustUseWith) + (ConstraintText(e.accessible.constraint)
      + (Eol + t)))))))))))
  {
    var o, m := e.option, e.accessible;
    var x1, x2, x3, x4 := HeadText(o), TagText(OptionTag(m)), RequiredText(o.required), EnumText(m);
    var x5, x6, x7 := DescriptionText(o.description), NoteText(IncompatibleLabel, o.incompatible), NoteText(UsedWithLabel, o.mustUseWith);
    var x8 := ConstraintText(m.constraint);
    var t8 := x8 + (Eol + t);
    var t7 := x7 + t8;
    var t6 := x6 + t7;
    var t5 := x5 + t6;
    var t4 := x4 + t5;
    var t3 := x3 + t4;
    var t2 := x2 + t3;
    var t1 := ConcatMap(o.aliases, AliasText) + t2;
    AppendAssoc(x1 + x2 + x3 + x4 + x5 + x6 + x7 + x8, Eol, t);
    AppendAssoc(x1 + x2 + x3 + x4 + x5 + x6 + x7, x8, Eol + t);
    AppendAssoc(x1 + x2 + x3 + x4 + x5 + x6, x7, t8);
    AppendAssoc(x1 + x2 + x3 + x4 + x5, x6, t7);
    AppendAssoc(x1 + x2 + x3 + x4, x5, t6);
    AppendAssoc(x1 + x2 + x3, x4, t5);
    AppendAssoc(x1 + x2, x3, t4);
    AppendAssoc(x1, x2, t3);
    AppendAssoc("\t" + o.name + " ", ConcatMap(o.aliases, AliasText), t2);
    AppendAssoc("\t" + o.name, " ", t1);
    AppendAssoc("\t", o.name, " " + t1);
  }

  /** A label beginning with a line break and two tabs cannot start a line break followed by t. */
  lemma NoLabelBeforeBlock(heading: string, t: string)
    requires |heading| >= 3 && heading[..3] == "\n\t\t"
    requires BlockFollows(t)
    ensures !(heading <= "\n" + t)
  {
    assert heading[1..3] == "\t\t";
    if |t| >= 2 {
      assert ("\n" + t)[1..3] == t[..2];
    }

  }

  /** What the decoders need to know about the text after each NOTE and the constraint line. */
  lemma AfterNotesFacts(oc: Option<Constraint>, mustUseWith: seq<string>, t: string, t9: string, t8: string, t7: string)
    requires BlockFollows(t)
    requires t9 == Eol + t && t8 == ConstraintText(oc) + t9 && t7 == NoteText(UsedWithLabel, mustUseWith) + t8
    ensures !(ConstraintLabel <= t9)
    ensures WordsEnd(t8) && !(UsedWithLabel <= t8)
    ensures WordsEnd(t7) && !(IncompatibleLabel <= t7)
  {
    AfterConstraintFacts(oc, t, t9, t8);
    AfterUsedWithFacts(oc, mustUseWith, t, t9, t8, t7);
  }

  /** The line break ending a block, and the constraint line before it. */
  lemma AfterConstraintFacts(oc: Option<Constraint>, t: string, t9: string, t8: string)
    requires BlockFollows(t)
    requires t9 == Eol + t && t8 == ConstraintText(oc) + t9
    ensures !(ConstraintLabel <= t9)
    ensures WordsEnd(t8) && !(UsedWithLabel <= t8)
  {
    Mismatch(ConstraintLabel, t9, 0);
    if oc.Some? {
      Mismatch(UsedWithLabel, t8, 0);
    } else {
      EmptyAppend(t9);
      NoLabelBeforeBlock(UsedWithLabel, t);
    }
  }

  /** Both NOTE labels open a new line indented by two tabs. */
  lemma NoteLabelsStart()
    ensures IncompatibleLabel[..3] == "\n\t\t" && UsedWithLabel[..3] == "\n\t\t"
  {
    assert IncompatibleLabel == "\n\t\t" + IncompatibleLabel[3..];
    assert UsedWithLabel == "\n\t\t" + UsedWithLabel[3..];
  }

  /** The "Used together with" note, and what follows it. */
  lemma AfterUsedWithFacts(oc: Option<Constraint>, mustUseWith: seq<string>, t: string, t9: string, t8: string, t7: string)
    requires BlockFollows(t)
    requires t9 == Eol + t && t8 == ConstraintText(oc) + t9 && t7 == NoteText(UsedWithLabel, mustUseWith) + t8
    ensures WordsEnd(t7) && !(IncompatibleLabel <= t7)
  {
    if |mustUseWith| > 0 {
      AppendAssoc(UsedWithLabel, ConcatMap(mustUseWith, WordText), t8);
      Mismatch(IncompatibleLabel, t7, 10);
    } else if oc.Some? {
      EmptyAppend(t8);
      Mismatch(IncompatibleLabel, t7, 0);
    } else {
      EmptyAppend(t8);
      EmptyAppend(t9);
      assert t7 == "\n" + t;
      NoteLabelsStart();
      NoLabelBeforeBlock(IncompatibleLabel, t);
    }
  }

  /** What the decoders need to know about the text after the aliases, the tag, the mark and the enum line. */
  lemma BeforeDescriptionFacts(o: OptionDecl, m: Accessible, t6: string, t5: string, t4: string, t3: string, t2: string)
    requires t5 == DescriptionText(o.description) + t6 && t4 == EnumText(m) + t5
    requires t3 == RequiredText(o.required) + t4 && t2 == TagText(OptionTag(m)) + t3
    ensures |t5| > 0 && t5[0] == '\n' && !(EnumLabel <= t5)
    ensures !(RequiredMark <= t4)
    ensures OptionTag(m) == NoTag ==> !("[" <= t3)
    ensures !(", " <= t2)
  {
    DescriptionStarts(o.description, t6);
    Mismatch(EnumLabel, t5, 3);
    if m.isEnum { AppendAssoc(EnumLabel, m.enumConstants, t5); } else { EmptyAppend(t5); }
    Mismatch(RequiredMark, t4, 0);
    if !o.required { EmptyAppend(t4); }
    Mismatch("[", t3, 0);
    if OptionTag(m) == NoTag { EmptyAppend(t3); }
    Mismatch(", ", t2, 0);
  }

  lemma OptionHeadRoundTrip(o: OptionDecl, k: TagKind, t3: string, t2: string, t1: string)
    requires Word(o.name) && AllWords(o.aliases) && PlainTag(k)
    requires k == NoTag ==> !("[" <= t3)
    requires !(", " <= t2)
    requires t2 == TagText(k) + t3 && t1 == ConcatMap(o.aliases, AliasText) + t2
    ensures DecodeOptionHead("\t" + (o.name + (" " + t1))) == Some(Parsed((o.name, o.aliases, k), t3))
  {
    StripConcat("\t", o.name + (" " + t1));
    WordHasNoSpace(o.name);
    TokenConcat(o.name, t1);
    AliasesRoundTrip(o.aliases, t2);
    TagRoundTrip(k, t3);
  }

  lemma OptionBodyRoundTrip(o: OptionDecl, m: Accessible, t6: string, t5: string, t4: string, t3: string)
    requires (m.isEnum ==> '\n' !in m.enumConstants) && '\n' !in o.description
    requires t5 == DescriptionText(o.description) + t6 && t4 == EnumText(m) + t5
    requires t3 == RequiredText(o.required) + t4
    requires |t5| > 0 && t5[0] == '\n' && !(EnumLabel <= t5) && !(RequiredMark <= t4)
    ensures DecodeOptionBody(t3)
      == Some(Parsed((o.required, if m.isEnum then Some(m.enumConstants) else None, o.description), t6))
  {
    RequiredRoundTrip(o.required, t4);
    EnumRoundTrip(m, t5);
    DescriptionRoundTrip(o.description, t6);
  }

  lemma BlockEndRoundTrip(incompatible: seq<string>, mustUseWith: seq<string>, oc: Option<Constraint>,
                          t: string, t9: string, t8: string, t7: string, t6: string)
    requires AllWords(incompatible) && AllWords(mustUseWith) && (oc.Some? ==> PlainConstraint(oc.value))
    requires BlockFollows(t)
    requires t9 == Eol + t && t8 == ConstraintText(oc) + t9 && t7 == NoteText(UsedWithLabel, mustUseWith) + t8
    requires t6 == NoteText(IncompatibleLabel, incompatible) + t7
    ensures DecodeBlockEnd(t6) == Some(Parsed((incompatible, mustUseWith, ShownConstraint(oc)), t))
  {
    AfterNotesFacts(oc, mustUseWith, t, t9, t8, t7);
    NoteRoundTrip(IncompatibleLabel, incompatible, t7);
    NoteRoundTrip(UsedWithLabel, mustUseWith, t8);
    ConstraintRoundTrip(oc, t9);
    StripConcat(Eol, t);
  }

  /**
   * An option block is read back as what it shows: name, aliases in order, tag, REQUIRED,
   * enum constants, description, both NOTE lists and the Constraint, with the text after
   * the block left untouched.
   */
  lemma OptionRoundTrip(e: OptionEntry, t: string)
    requires PlainOption(e)
    requires BlockFollows(t)
    ensures DecodeOption(OptionText(e) + t) == Some(Parsed(ViewOfOption(e), t))
  {
    var o, m := e.option, e.accessible;
    var t9 := Eol + t;
    var t8 := ConstraintText(m.constraint) + t9;
    var t7 := NoteText(UsedWithLabel, o.mustUseWith) + t8;
    var t6 := NoteText(IncompatibleLabel, o.incompatible) + t7;
    var t5 := DescriptionText(o.description) + t6;
    var t4 := EnumText(m) + t5;
    var t3 := RequiredText(o.required) + t4;
    var t2 := TagText(OptionTag(m)) + t3;
    var t1 := ConcatMap(o.aliases, AliasText) + t2;
    OptionTextSplit(e, t);
    BeforeDescriptionFacts(o, m, t6, t5, t4, t3, t2);
    OptionHeadRoundTrip(o, OptionTag(m), t3, t2, t1);
    OptionBodyRoundTrip(o, m, t6, t5, t4, t3);
    BlockEndRoundTrip(o.incompatible, o.mustUseWith, m.constraint, t, t9, t8, t7, t6);
  }

  // ---------------------------------------------------------------- argument blocks

  /** Where an argument line says the argument sits. */
  datatype Position = At(index: int) | Span(index: int, size: int) | AllFrom(index: int)

  /** The three index forms: an array with a positive size, any other array, anything else. */
  function PositionOf(m: Accessible, a: ArgumentDecl): Position
  {
    if m.isArray then (if a.size > 0 then Span(a.index, a.size) else AllFrom(a.index))
    else At(a.index)
  }

  /** What an argument block shows. */
  datatype ArgumentView = ArgumentView(
    name: string,
    isArray: bool,
    typeName: string,
    position: Position,
    required: bool,
    description: string,
    constraint: Option<Constraint>)

  function ViewOfArgument(e: ArgumentEntry): ArgumentView
  {
    var m, a := e.accessible, e.argument;
    ArgumentView(a.name, m.isArray, m.valueTypeName, PositionOf(m, a), a.required, a.description,
      ShownConstraint(m.constraint))
  }

  /** Argument values that contain no separator; a name spelled like the placeholder would read as no name. */
  predicate PlainArgument(e: ArgumentEntry)
  {
    var m, a := e.accessible, e.argument;
    Word(a.name) && a.name != Placeholder && TypeName(m.valueTypeName)
      && '\n' !in a.description
      && (m.constraint.Some? ==> PlainConstraint(m.constraint.value))
  }

  /** Tab, name (the placeholder reads as no name) and the bracketed type. */
  function DecodeArgumentHead(s: string): (r: Option<Parsed<(string, bool, string)>>)
    ensures r.Some? ==> |r.value.rest| < |s|
  {
    var a :- Strip(s, "\t");
    var name :- Token(a);
    var shownName := if name.value == Placeholder then "" else name.value;
    if "[array of " <= name.rest then
      var b := Break(name.rest[10..], ']');
      var rest :- Strip(b.rest, "] ");
      Some(Parsed((shownName, true, b.value), rest))
    else
      var c :- Strip(name.rest, "[");
      var b := Break(c, ']');
      var rest :- Strip(b.rest, "] ");
      Some(Parsed((shownName, false, b.value), rest))
  }

  lemma ArgumentHeadRoundTrip(m: Accessible, a: ArgumentDecl, t: string)
    requires Word(a.name) && a.name != Placeholder && TypeName(m.valueTypeName)
    ensures DecodeArgumentHead("\t" + DisplayName(a.name) + " " + ArgumentTypeText(m) + t)
      == Some(Parsed((a.name, m.isArray, m.valueTypeName), t))
  {
    var shown := DisplayName(a.name);
    var n := m.valueTypeName;
    var t1 := ArgumentTypeText(m) + t;
    assert "\t" + shown + " " + ArgumentTypeText(m) + t == "\t" + (shown + (" " + t1)) by {
      AppendAssoc("\t" + shown + " ", ArgumentTypeText(m), t);
      AppendAssoc("\t" + shown, " ", t1);
      AppendAssoc("\t", shown, " " + t1);
    }
    StripConcat("\t", shown + (" " + t1));
    assert ' ' !in shown by {
      if a.name != "" { WordHasNoSpace(a.name); }
    }
    TokenConcat(shown, t1);
    TypeNameHasNo(n, ']');
    if m.isArray {
      assert t1 == "[array of " + (n + ("] " + t)) by {
        AppendAssoc("[array of " + n, "] ", t);
        AppendAssoc("[array of ", n, "] " + t);
      }
      assert t1[10..] == n + ("] " + t);
      BreakConcat(n, "] " + t, ']');
      StripConcat("] ", t);
    } else {
      assert t1 == "[" + n + "]" + (" " + t) by {
        assert "[" + n + "] " == "[" + n + "]" + " ";
        AppendAssoc("[" + n + "]", " ", t);
      }
      ScalarIsNoArray(n, " " + t);
      assert t1 == "[" + (n + ("] " + t)) by {
        AppendAssoc("[" + n, "] ", t);
        AppendAssoc("[", n, "] " + t);
      }
      StripConcat("[", n + ("] " + t));
      BreakConcat(n, "] " + t, ']');
      StripConcat("] ", t);
    }
  }

  /** "(index: i)", "(index: i, size: s)" or "(all from index i)". */
  function DecodePosition(s: string): (r: Option<Parsed<Position>>)
    ensures r.Some? ==> |r.value.rest| < |s|
  {
    if "(index: " <= s then
      var index :- ParseInt(s[8..]);
      if ", size: " <= index.rest then
        var size :- ParseInt(index.rest[8..]);
        var rest :- Strip(size.rest, ")");
        Some(Parsed(Span(index.value, size.value), rest))
      else
        var rest :- Strip(index.rest, ")");
        Some(Parsed(At(index.value), rest))
    else if "(all from index " <= s then
      var index :- ParseInt(s[16..]);
      var rest :- Strip(index.rest, ")");
      Some(Parsed(AllFrom(index.value), rest))
    else None
  }

  lemma SpanRoundTrip(index: int, size: int, t: string)
    ensures DecodePosition("(index: " + DecimalString(index) + ", size: " + DecimalString(size) + ")" + t)
      == Some(Parsed(Span(index, size), t))
  {
    var i, z := DecimalString(index), DecimalString(size);
    var s := "(index: " + i + ", size: " + z + ")" + t;
    assert s == "(index: " + (i + (", size: " + (z + (")" + t)))) by {
      AppendAssoc("(index: " + i + ", size: " + z, ")", t);
      AppendAssoc("(index: " + i + ", size: ", z, ")" + t);
      AppendAssoc("(index: " + i, ", size: ", z + (")" + t));
      AppendAssoc("(index: ", i, ", size: " + (z + (")" + t)));
    }
    assert s[8..] == i + (", size: " + (z + (")" + t)));
    DecimalRoundTrip(index, ", size: " + (z + (")" + t)));
    assert (", size: " + (z + (")" + t)))[8..] == z + (")" + t);
    DecimalRoundTrip(size, ")" + t);
    StripConcat(")", t);
  }

  lemma AllFromRoundTrip(index: int, t: string)
    ensures DecodePosition("(all from index " + DecimalString(index) + ")" + t) == Some(Parsed(AllFrom(index), t))
  {
    var i := DecimalString(index);
    var s := "(all from index " + i + ")" + t;
    assert s == "(all from index " + (i + (")" + t)) by {
      AppendAssoc("(all from index " + i, ")", t);
      AppendAssoc("(all from index ", i, ")" + t);
    }
    Mismatch("(index: ", s, 1);
    assert s[16..] == i + (")" + t);
    DecimalRoundTrip(index, ")" + t);
    StripConcat(")", t);
  }

  lemma AtRoundTrip(index: int, t: string)
    ensures DecodePosition("(index: " + DecimalString(index) + ")" + t) == Some(Parsed(At(index), t))
  {
    var i := DecimalString(index);
    var s := "(index: " + i + ")" + t;
    assert s == "(index: " + (i + (")" + t)) by {
      AppendAssoc("(index: " + i, ")", t);
      AppendAssoc("(index: ", i, ")" + t);
    }
    assert s[8..] == i + (")" + t);
    DecimalRoundTrip(index, ")" + t);
    Mismatch(", size: ", ")" + t, 0);
    StripConcat(")", t);
  }

  /** `%d` is read back in each of the three index forms. */
  lemma PositionRoundTrip(m: Accessible, a: ArgumentDecl, t: string)
    ensures DecodePosition(IndexText(m, a) + t) == Some(Parsed(PositionOf(m, a), t))
  {
    if m.isArray && a.size > 0 {
      SpanRoundTrip(a.index, a.size, t);
    } else if m.isArray {
      AllFromRoundTrip(a.index, t);
    } else {
      AtRoundTrip(a.index, t);
    }
  }

  /** The index form, the REQUIRED mark and the description of an argument line. */
  function DecodeArgumentBody(s: string): (r: Option<Parsed<(Position, bool, string)>>)
    ensures r.Some? ==> |r.value.rest| < |s|
  {
    var position :- DecodePosition(s);
    var required := DecodeRequired(position.rest);
    var description :- DecodeDescription(required.rest);
    Some(Parsed((position.value, required.value, description.value), description.rest))
  }

  /** The constraint line and the blank line that end an argument block. */
  function DecodeArgumentEnd(s: string): (r: Option<Parsed<Option<Constraint>>>)
    ensures r.Some? ==> |r.value.rest| <= |s|
  {
    var constraint :- DecodeConstraint(s);
    var end :- Strip(constraint.rest, Eol);
    Some(Parsed(constraint.value, end))
  }

  /** printHelpForArgument read back. */
  function DecodeArgument(s: string): (r: Option<Parsed<ArgumentView>>)
    ensures r.Some? ==> |r.value.rest| < |s|
  {
    var head :- DecodeArgumentHead(s);
    var body :- DecodeArgumentBody(head.rest);
    var end :- DecodeArgumentEnd(body.rest);
    Some(Parsed(ArgumentView(head.value.0, head.value.1, head.value.2, body.value.0, body.value.1,
      body.value.2, end.value), end.rest))
  }

  /** An argument block followed by t, regrouped piece by piece from the right. */
  lemma ArgumentTextSplit(e: ArgumentEntry, t: string)
    ensures ArgumentText(e) + t == "\t" + DisplayName(e.argument.name) + " " + ArgumentTypeText(e.accessible)
      + (IndexText(e.accessible, e.argument) + (RequiredText(e.argument.required)
      + (DescriptionText(e.argument.description) + (ConstraintText(e.accessible.constraint) + (Eol + t)))))
  {
    var m, a := e.accessible, e.argument;
    var h := "\t" + DisplayName(a.name) + " " + ArgumentTypeText(m);
    var x5, x6, x7, x8 := IndexText(m, a), RequiredText(a.required), DescriptionText(a.description), ConstraintText(m.constraint);
    var t8 := x8 + (Eol + t);
    var t7 := x7 + t8;
    var t6 := x6 + t7;
    AppendAssoc(h + x5 + x6 + x7 + x8, Eol, t);
    AppendAssoc(h + x5 + x6 + x7, x8, Eol + t);
    AppendAssoc(h + x5 + x6, x7, t8);
    AppendAssoc(h + x5, x6, t7);
    AppendAssoc(h, x5, t6);
  }

  lemma ArgumentBodyRoundTrip(m: Accessible, a: ArgumentDecl, t8: string)
    requires '\n' !in a.description
    ensures DecodeArgumentBody(IndexText(m, a) + (RequiredText(a.required) + (DescriptionText(a.description) + t8)))
      == Some(Parsed((PositionOf(m, a), a.required, a.description), t8))
  {
    var t7 := DescriptionText(a.description) + t8;
    var t6 := RequiredText(a.required) + t7;
    PositionRoundTrip(m, a, t6);
    DescriptionStarts(a.description, t8);
    Mismatch(RequiredMark, t7, 0);
    RequiredRoundTrip(a.required, t7);
    DescriptionRoundTrip(a.description, t8);
  }

  lemma ArgumentEndRoundTrip(oc: Option<Constraint>, t: string)
    requires oc.Some? ==> PlainConstraint(oc.value)
    ensures DecodeArgumentEnd(ConstraintText(oc) + (Eol + t)) == Some(Parsed(ShownConstraint(oc), t))
  {
    Mismatch(ConstraintLabel, Eol + t, 0);
    ConstraintRoundTrip(oc, Eol + t);
    StripConcat(Eol, t);
  }

  /**
   * An argument block is read back as what it shows: name (none for the placeholder), array
   * or not, type name, the index form, REQUIRED, description and the Constraint.
   */
  lemma ArgumentRoundTrip(e: ArgumentEntry, t: string)
    requires PlainArgument(e)
    ensures DecodeArgument(ArgumentText(e) + t) == Some(Parsed(ViewOfArgument(e), t))
  {
    var m, a := e.accessible, e.argument;
    var t8 := ConstraintText(m.constraint) + (Eol + t);
    var t5 := IndexText(m, a) + (RequiredText(a.required) + (DescriptionText(a.description) + t8));
    ArgumentTextSplit(e, t);
    ArgumentHeadRoundTrip(m, a, t5);
    ArgumentBodyRoundTrip(m, a, t8);
    ArgumentEndRoundTrip(m.constraint, t);
  }

  // ---------------------------------------------------------------- the whole listing

  /** What the whole listing shows. */
  datatype HelpView = HelpView(options: seq<OptionView>, arguments: seq<ArgumentView>)

  function OptionViews(xs: seq<OptionEntry>): (r: seq<OptionView>)
    ensures |r| == |xs|
    ensures forall i :: 0 <= i < |xs| ==> r[i] == ViewOfOption(xs[i])
  {
    if |xs| == 0 then [] else [ViewOfOption(xs[0])] + OptionViews(xs[1..])
  }

  function ArgumentViews(xs: seq<ArgumentEntry>): (r: seq<ArgumentView>)
    ensures |r| == |xs|
    ensures forall i :: 0 <= i < |xs| ==> r[i] == ViewOfArgument(xs[i])
  {
    if |xs| == 0 then [] else [ViewOfArgument(xs[0])] + ArgumentViews(xs[1..])
  }

  function ViewOfHelp(intro: Introspector): HelpView
  {
    HelpView(OptionViews(intro.options), ArgumentViews(intro.arguments))
  }

  predicate PlainIntrospector(intro: Introspector)
  {
    (forall i :: 0 <= i < |intro.options| ==> PlainOption(intro.options[i]))
      && (forall i :: 0 <= i < |intro.arguments| ==> PlainArgument(intro.arguments[i]))
  }

  /** Option blocks, as long as the next line starts with a tab. */
  function DecodeOptions(s: string): (r: Option<Parsed<seq<OptionView>>>)
    ensures r.Some? ==> |r.value.rest| <= |s|
    decreases |s|
  {
    if "\t" <= s then
      var option :- DecodeOption(s);
      var more :- DecodeOptions(option.rest);
      Some(Parsed([option.value] + more.value, more.rest))
    else Some(Parsed([], s))
  }

  /** Argument blocks, as long as the next line starts with a tab. */
  function DecodeArguments(s: string): (r: Option<Parsed<seq<ArgumentView>>>)
    ensures r.Some? ==> |r.value.rest| <= |s|
    decreases |s|
  {
    if "\t" <= s then
      var argument :- DecodeArgument(s);
      var more :- DecodeArguments(argument.rest);
      Some(Parsed([argument.value] + more.value, more.rest))
    else Some(Parsed([], s))
  }

  /** printHelp read back: both headers, the blocks between them, and nothing after the last block. */
  function DecodeHelp(s: string): Option<HelpView>
  {
    var a :- Strip(s, OptionsHeader);
    var options :- DecodeOptions(a);
    var b :- Strip(options.rest, ArgumentsHeader);
    var arguments :- DecodeArguments(b);
    if arguments.rest == "" then Some(HelpView(options.value, arguments.value)) else None
  }

  /** What may follow a list of blocks: anything that does not start with a tab. */
  predicate ListFollows(t: string)
  {
    t == [] || t[0] != '\t'
  }

  /** A block starts with one tab and then a character of the name, or the space after it. */
  lemma BlockStart(head: string, name: string, u: string)
    requires Word(name) && head == "\t" + (name + (" " + u))
    ensures "\t" <= head && !("\t\t" <= head[1..]) && !("\t\t" <= head)
  {
    var tail := head[1..];
    assert tail == name + (" " + u);
    if |name| > 0 {
      assert tail[0] == name[0] && name[0] !in {' ', '\t', '\n'};
    } else {
      assert tail[0] == ' ';
    }
    Mismatch("\t\t", tail, 0);
    Mismatch("\t\t", head, 1);
  }

  lemma OptionBlockStart(e: OptionEntry, u: string)
    requires Word(e.option.name)
    ensures "\t" <= OptionText(e) + u && !("\t\t" <= OptionText(e) + u)
  {
    OptionTextSplit(e, u);
    var o, m := e.option, e.accessible;
    BlockStart(OptionText(e) + u, o.name, ConcatMap(o.aliases, AliasText)
      + (TagText(OptionTag(m)) + (RequiredText(o.required) + (EnumText(m)
      + (DescriptionText(o.description) + (NoteText(IncompatibleLabel, o.incompatible)
      + (NoteText(UsedWithLabel, o.mustUseWith) + (ConstraintText(m.constraint) + (Eol + u)))))))));
  }

  /** The option blocks, and the text after them, never start with two tabs. */
  lemma OptionListStart(xs: seq<OptionEntry>, t: string)
    requires |xs| > 0 ==> Word(xs[0].option.name)
    requires ListFollows(t)
    ensures BlockFollows(ConcatMap(xs, OptionText) + t)
  {
    if |xs| > 0 {
      assert ConcatMap(xs, OptionText) == OptionText(xs[0]) + ConcatMap(xs[1..], OptionText);
      AppendAssoc(OptionText(xs[0]), ConcatMap(xs[1..], OptionText), t);
      OptionBlockStart(xs[0], ConcatMap(xs[1..], OptionText) + t);
    } else {
      EmptyAppend(t);
      if |t| > 0 { Mismatch("\t\t", t, 0); }
    }
  }

  lemma {:induction false} OptionsRoundTrip(xs: seq<OptionEntry>, t: string)
    requires forall i :: 0 <= i < |xs| ==> PlainOption(xs[i])
    requires ListFollows(t)
    ensures DecodeOptions(ConcatMap(xs, OptionText) + t) == Some(Parsed(OptionViews(xs), t))
  {
    if |xs| == 0 {
      EmptyAppend(t);
      if |t| > 0 {
        Mismatch("\t", t, 0);
      }
    } else {
      assert forall i :: 0 <= i < |xs[1..]| ==> PlainOption(xs[1..][i]) by {
        forall i | 0 <= i < |xs[1..]| ensures PlainOption(xs[1..][i]) {
          assert xs[1..][i] == xs[i + 1];
        }
      }
      OptionListStart(xs[1..], t);
      OptionsRoundTrip(xs[1..], t);
      OptionListStep(xs, t);
    }
  }

  /** One more option block in front of decodable blocks is decoded first. */
  lemma OptionListStep(xs: seq<OptionEntry>, t: string)
    requires |xs| > 0 && PlainOption(xs[0])
    requires BlockFollows(ConcatMap(xs[1..], OptionText) + t)
    requires DecodeOptions(ConcatMap(xs[1..], OptionText) + t) == Some(Parsed(OptionViews(xs[1..]), t))
    ensures DecodeOptions(ConcatMap(xs, OptionText) + t) == Some(Parsed(OptionViews(xs), t))
  {
    var rest := ConcatMap(xs[1..], OptionText) + t;
    var s := ConcatMap(xs, OptionText) + t;
    AppendAssoc(OptionText(xs[0]), ConcatMap(xs[1..], OptionText), t);
    assert s == OptionText(xs[0]) + rest;
    OptionRoundTrip(xs[0], rest);
    OptionBlockStart(xs[0], rest);
    assert DecodeOption(s) == Some(Parsed(ViewOfOption(xs[0]), rest));
    assert OptionViews(xs) == [ViewOfOption(xs[0])] + OptionViews(xs[1..]);
  }

  lemma ArgumentBlockStart(e: ArgumentEntry, u: string)
    requires Word(e.argument.name)
    ensures "\t" <= ArgumentText(e) + u && !("\t\t" <= ArgumentText(e) + u)
  {
    var m, a := e.accessible, e.argument;
    var shown := DisplayName(a.name);
    assert Word(shown) by {
      if a.name == "" {
        assert forall i :: 0 <= i < |Placeholder| ==> Placeholder[i] !in {' ', '\t', '\n'};
      }
    }
    ArgumentTextSplit(e, u);
    var w := IndexText(m, a) + (RequiredText(a.required) + (DescriptionText(a.description)
      + (ConstraintText(m.constraint) + (Eol + u))));
    assert ArgumentText(e) + u == "\t" + (shown + (" " + (ArgumentTypeText(m) + w))) by {
      AppendAssoc("\t" + shown + " ", ArgumentTypeText(m), w);
      AppendAssoc("\t" + shown, " ", ArgumentTypeText(m) + w);
      AppendAssoc("\t", shown, " " + (ArgumentTypeText(m) + w));
    }
    BlockStart(ArgumentText(e) + u, shown, ArgumentTypeText(m) + w);
  }

  lemma {:induction false} ArgumentsRoundTrip(xs: seq<ArgumentEntry>, t: string)
    requires forall i :: 0 <= i < |xs| ==> PlainArgument(xs[i])
    requires ListFollows(t)
    ensures DecodeArguments(ConcatMap(xs, ArgumentText) + t) == Some(Parsed(ArgumentViews(xs), t))
  {
    if |xs| == 0 {
      EmptyAppend(t);
      if |t| > 0 {
        Mismatch("\t", t, 0);
      }
    } else {
      assert forall i :: 0 <= i < |xs[1..]| ==> PlainArgument(xs[1..][i]) by {
        forall i | 0 <= i < |xs[1..]| ensures PlainArgument(xs[1..][i]) {
          assert xs[1..][i] == xs[i + 1];
        }
      }
      ArgumentsRoundTrip(xs[1..], t);
      ArgumentListStep(xs, t);
    }
  }

  /** One more argument block in front of decodable blocks is decoded first. */
  lemma ArgumentListStep(xs: seq<ArgumentEntry>, t: string)
    requires |xs| > 0 && PlainArgument(xs[0])
    requires DecodeArguments(ConcatMap(xs[1..], ArgumentText) + t) == Some(Parsed(ArgumentViews(xs[1..]), t))
    ensures DecodeArguments(ConcatMap(xs, ArgumentText) + t) == Some(Parsed(ArgumentViews(xs), t))
  {
    var rest := ConcatMap(xs[1..], ArgumentText) + t;
    var s := ConcatMap(xs, ArgumentText) + t;
    AppendAssoc(ArgumentText(xs[0]), ConcatMap(xs[1..], ArgumentText), t);
    assert s == ArgumentText(xs[0]) + rest;
    ArgumentRoundTrip(xs[0], rest);
    ArgumentBlockStart(xs[0], rest);
    assert DecodeArgument(s) == Some(Parsed(ViewOfArgument(xs[0]), rest));
    assert ArgumentViews(xs) == [ViewOfArgument(xs[0])] + ArgumentViews(xs[1..]);
  }

  /**
   * The listing gives back everything it shows, in order: every option block and every
   * argument block, and nothing is left over.
   */
  lemma HelpRoundTrip(intro: Introspector)
    requires PlainIntrospector(intro)
    ensures DecodeHelp(HelpText(intro)) == Some(ViewOfHelp(intro))
  {
    var options := ConcatMap(intro.options, OptionText);
    var arguments := ConcatMap(intro.arguments, ArgumentText);
    var afterOptions := ArgumentsHeader + (arguments + "");
    assert HelpText(intro) == OptionsHeader + (options + afterOptions) by {
      AppendEmpty(arguments);
      AppendAssoc(OptionsHeader + options, ArgumentsHeader, arguments);
      AppendAssoc(OptionsHeader, options, ArgumentsHeader + arguments);
    }
    StripConcat(OptionsHeader, options + afterOptions);
    OptionsRoundTrip(intro.options, afterOptions);
    StripConcat(ArgumentsHeader, arguments + "");
    ArgumentsRoundTrip(intro.arguments, "");
  }

  /** Two plain catalogues with the same listing declare the same visible options and arguments. */
  lemma HelpTextDeterminesView(a: Introspector, b: Introspector)
    requires PlainIntrospector(a) && PlainIntrospector(b)
    requires HelpText(a) == HelpText(b)
    ensures ViewOfHelp(a) == ViewOfHelp(b)
  {
    HelpRoundTrip(a);
    HelpRoundTrip(b);
  }
}
