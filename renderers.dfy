/**
 * The three renderers of functions.js (`generateSchemaFields`,
 * `generateValidationFieldsForCreate`, `generateValidationFieldsForUpdate`)
 * and the validator table they share. Every token is parsed afresh by
 * each renderer; entries keep the input order.
 *
 * Beside them stand two decoders that read a rendered entry back into
 * what it says (name, type, required, default). They are not part of
 * the generator: the round-trip lemmas use them to state what an entry
 * means without repeating how it is printed.
 */
module Renderers {
  import opened Optional
  import opened Strings
  import opened Descriptor

  // ---------------------------------------------------------------------
  // Fixed text

  /** Substituted for an empty field list when the placeholder flag is set. */
  const SchemaPlaceholder: string := "  attribut: {\n      type: String,\n  }"
  const RulePlaceholder: string := "  attribut: joi.string()\n"

  const SchemaSeparator: string := ",\n"
  const RuleSeparator: string := ",\n    "

  /** The words of a schema entry that precede a colon. */
  const TypeKey: string := " {\n      type"
  const RequiredKey: string := ",\n      required"
  const DefaultKey: string := ",\n      default"

  const RequiredModifier: string := ".required()"

  // ---------------------------------------------------------------------
  // Schema fields

  /** `type.charAt(0).toUpperCase() + type.slice(1)` */
  function TypeName(f: Field): string
  {
    Capitalize(f.typeTag)
  }

  /** Quoted exactly when the schema type is spelt `String`. */
  function DefaultLiteral(typeName: string, d: string): string
  {
    if typeName == "String" then "'" + d + "'" else d
  }

  /**
   * An entry's text from its parts: `    name: {`, the `type` line, the
   * optional `required` and `default` lines, and the closing brace. Every
   * colon of the text is written as a piece of its own.
   */
  function EntryLines(name: string, typeName: string, required: bool, literal: Option<string>): string
  {
    "    " + name + ":" + TypeKey + ":"
      + (" " + typeName
         + (if required then RequiredKey + ":" + " true" else "")
         + (if literal.Some? then DefaultKey + ":" + " " + literal.value else ""))
      + "\n    }"
  }

  /** The schema entry of a parsed descriptor. */
  function EntryText(f: Field): string
  {
    var t := TypeName(f);
    EntryLines(f.name, t, IsRequired(f), if f.defaultValue.Some? then Some(DefaultLiteral(t, f.defaultValue.value)) else None)
  }

  /** The `map` callback of `generateSchemaFields`: parse the token, print its entry. */
  function SchemaEntry(token: string): string
  {
    EntryText(Parse(token))
  }

  function SchemaEntries(fields: seq<string>): seq<string>
  {
    seq(|fields|, i requires 0 <= i < |fields| => SchemaEntry(fields[i]))
  }

  /** `generateSchemaFields(fields, bool)` */
  function SchemaFields(fields: seq<string>, placeholder: bool): string
  {
    if |fields| == 0 && placeholder then SchemaPlaceholder
    else Join(SchemaSeparator, SchemaEntries(fields))
  }

  // ---------------------------------------------------------------------
  // Validation rules

  /** The `switch (type.toLowerCase())` shared by the create and update renderers. */
  function JoiBase(typeTag: string): string
  {
    var t := Lower(typeTag);
    if t == "string" then "joi.string()"
    else if t == "number" then "joi.number()"
    else if t == "boolean" then "joi.boolean()"
    else if t == "date" then "joi.date()"
    else "joi.any()"
  }

  function CreateRule(token: string): string
  {
    var f := Parse(token);
    "  " + f.name + ": " + JoiBase(f.typeTag) + (if IsRequired(f) then RequiredModifier else "")
  }

  function UpdateRule(token: string): string
  {
    var f := Parse(token);
    "  " + f.name + ": " + JoiBase(f.typeTag)
  }

  function CreateRules(fields: seq<string>): seq<string>
  {
    seq(|fields|, i requires 0 <= i < |fields| => CreateRule(fields[i]))
  }

  function UpdateRules(fields: seq<string>): seq<string>
  {
    seq(|fields|, i requires 0 <= i < |fields| => UpdateRule(fields[i]))
  }

  /** `generateValidationFieldsForCreate(fields, bool)` */
  function CreateFields(fields: seq<string>, placeholder: bool): string
  {
    if |fields| == 0 && placeholder then RulePlaceholder
    else Join(RuleSeparator, CreateRules(fields))
  }

  /** `generateValidationFieldsForUpdate(fields, bool)` */
  function UpdateFields(fields: seq<string>, placeholder: bool): string
  {
    if |fields| == 0 && placeholder then RulePlaceholder
    else Join(RuleSeparator, UpdateRules(fields))
  }

  // ---------------------------------------------------------------------
  // Reading rendered entries back

  datatype RuleView = RuleView(name: string, validator: string, required: bool)

  /** Reads `  name: validator` with an optional trailing `.required()`. */
  function DecodeRule(e: string): Option<RuleView>
  {
    if !HasPrefix(e, "  ") then None
    else
      var segs := Split(e[2..]);
      if |segs| != 2 || !HasPrefix(segs[1], " ") then None
      else
        var v := segs[1][1..];
        if HasSuffix(v, RequiredModifier) then Some(RuleView(segs[0], v[..|v| - |RequiredModifier|], true))
        else Some(RuleView(segs[0], v, false))
  }

  /** What a rule says about a descriptor. */
  function RuleMeaning(f: Field, create: bool): RuleView
  {
    RuleView(f.name, JoiBase(f.typeTag), create && IsRequired(f))
  }

  datatype SchemaView = SchemaView(name: string, typeName: string, required: bool, defaultValue: Option<string>)

  function Unquote(typeName: string, lit: string): string
  {
    if typeName == "String" && |lit| >= 2 && lit[0] == '\'' && lit[|lit| - 1] == '\'' then lit[1..|lit| - 1]
    else lit
  }

  /**
   * Reads a schema entry back. Names, type names and defaults contain no
   * colon (they are `split(":")` pieces), so the colons of an entry are
   * exactly those after the name, `type`, `required` and `default`.
   */
  function DecodeSchemaEntry(e: string): Option<SchemaView>
  {
    if !(HasPrefix(e, "    ") && HasSuffix(e, "\n    }") && |e| >= 10) then None
    else DecodeSchemaPieces(Split(e[4..|e| - 6]))
  }

  /** Reads the colon-separated pieces of an entry between its indentation and its closing brace. */
  function DecodeSchemaPieces(segs: seq<string>): Option<SchemaView>
  {
    if |segs| < 3 || segs[1] != TypeKey || !HasPrefix(segs[2], " ") then None
    else
      var s2 := segs[2][1..];
      if |segs| == 3 then Some(SchemaView(segs[0], s2, false, None))
      else if |segs| == 4 && HasSuffix(s2, RequiredKey) && segs[3] == " true" then
        Some(SchemaView(segs[0], s2[..|s2| - |RequiredKey|], true, None))
      else if |segs| == 4 && HasSuffix(s2, DefaultKey) && HasPrefix(segs[3], " ") then
        var t := s2[..|s2| - |DefaultKey|];
        Some(SchemaView(segs[0], t, false, Some(Unquote(t, segs[3][1..]))))
      else if |segs| == 5 && HasSuffix(s2, RequiredKey) && segs[3] == " true" + DefaultKey && HasPrefix(segs[4], " ") then
        var t := s2[..|s2| - |RequiredKey|];
        Some(SchemaView(segs[0], t, true, Some(Unquote(t, segs[4][1..]))))
      else None
  }

  /** What an entry says about a descriptor: the type name capitalised, the default verbatim. */
  function SchemaMeaning(f: Field): SchemaView
  {
    SchemaView(f.name, TypeName(f), IsRequired(f), f.defaultValue)
  }

  // ---------------------------------------------------------------------
  // The validator table

  /**
   * The validator names the lower-cased type tag itself when that tag is
   * one of the four known ones; every other tag, the empty one included,
   * falls back to `joi.any()`.
   */
  lemma ValidatorNamesTag(typeTag: string)
    ensures JoiBase(typeTag) ==
      if Lower(typeTag) in {"string", "number", "boolean", "date"} then "joi." + Lower(typeTag) + "()"
      else "joi.any()"
  {
    var t := Lower(typeTag);
    if t == "string" {
      assert "joi." + t + "()" == "joi.string()";
    } else if t == "number" {
      assert "joi." + t + "()" == "joi.number()";
    } else if t == "boolean" {
      assert "joi." + t + "()" == "joi.boolean()";
    } else if t == "date" {
      assert "joi." + t + "()" == "joi.date()";
    }
  }

  /** Validator selection ignores case. */
  lemma ValidatorIgnoresCase(t: string, u: string)
    requires Lower(t) == Lower(u)
    ensures JoiBase(t) == JoiBase(u)
  {
  }

  /** Every validator is one of five colon-free expressions, none ending in `.required()`. */
  lemma ValidatorShape(typeTag: string)
    ensures JoiBase(typeTag) in {"joi.string()", "joi.number()", "joi.boolean()", "joi.date()", "joi.any()"}
    ensures ':' !in JoiBase(typeTag) && 'q' !in JoiBase(typeTag)
    ensures !HasSuffix(JoiBase(typeTag), RequiredModifier)
  {
    var v := JoiBase(typeTag);
    if |v| >= |RequiredModifier| {
      assert v[|v| - |RequiredModifier|] != '.';
    }
  }

  // ---------------------------------------------------------------------
  // Schema type names and quoting

  lemma CapitalizeColonFree(s: string)
    requires ':' !in s
    ensures ':' !in Capitalize(s)
  {
    var r := Capitalize(s);
    if s != [] {
      LowerCharInverse(r[0], 'a');
      assert r[0] != ':';
      assert forall i :: 1 <= i < |r| ==> r[i] == s[i];
    }
  }

  /** The schema type name is `String` exactly for the tags `String` and `string`. */
  lemma TypeNameIsString(typeTag: string)
    ensures Capitalize(typeTag) == "String" <==> typeTag == "String" || typeTag == "string"
  {
    var r := Capitalize(typeTag);
    if r == "String" {
      assert LowerChar(typeTag[0]) == 's';
      LowerCharInverse(typeTag[0], 's');
      assert typeTag == [typeTag[0]] + "tring";
    }
  }

  /**
   * A default value is wrapped in single quotes exactly when the type tag
   * is `String` or `string`: `STRING`, `number`, `boolean`, `date` and any
   * other tag emit it raw.
   */
  lemma QuotedIffStringType(typeTag: string, d: string)
    ensures DefaultLiteral(Capitalize(typeTag), d) == "'" + d + "'" <==> typeTag == "String" || typeTag == "string"
  {
    TypeNameIsString(typeTag);
    if Capitalize(typeTag) != "String" {
      assert |DefaultLiteral(Capitalize(typeTag), d)| == |d|;
    }
  }

  /** Unquoting undoes the quoting rule. */
  lemma UnquoteDefault(t: string, d: string)
    ensures Unquote(t, DefaultLiteral(t, d)) == d
  {
    if t == "String" {
      var q := "'" + d + "'";
      assert q[1..|q| - 1] == d;
    }
  }

  // ---------------------------------------------------------------------
  // Create and update rules read back

  /** A create rule is the update rule of the same token, plus `.required()` when the flag is set. */
  lemma CreateExtendsUpdate(token: string)
    ensures CreateRule(token) == UpdateRule(token) + (if IsRequired(Parse(token)) then RequiredModifier else "")
  {
  }

  lemma DecodeRuleText(name: string, v: string, m: string)
    requires ':' !in name && ':' !in v && ':' !in m
    requires m == RequiredModifier || (m == "" && !HasSuffix(v, RequiredModifier))
    ensures DecodeRule("  " + name + ": " + v + m) == Some(RuleView(name, v, m != ""))
  {
    var e := "  " + name + ": " + v + m;
    var rest := " " + (v + m);
    assert e == "  " + (name + ":" + rest);
    assert e[..2] == "  ";
    assert e[2..] == name + ":" + rest;
    SplitConcat(name, rest);
    SplitNoColon(name);
    assert ':' !in rest;
    SplitNoColon(rest);
    var segs := Split(e[2..]);
    assert segs == [name, rest];
    assert rest[..1] == " ";
    assert rest[1..] == v + m;
    if m != "" {
      assert (v + m)[|v + m| - |RequiredModifier|..] == m;
      assert (v + m)[..|v + m| - |RequiredModifier|] == v;
    } else {
      assert v + m == v;
    }
  }

  /** A create rule reads back as the token's name and validator, required exactly when the flag is set. */
  lemma DecodeCreateRule(token: string)
    ensures DecodeRule(CreateRule(token)) == Some(RuleMeaning(Parse(token), true))
  {
    var f := Parse(token);
    ParseColonFree(token);
    ValidatorShape(f.typeTag);
    DecodeRuleText(f.name, JoiBase(f.typeTag), if IsRequired(f) then RequiredModifier else "");
  }

  /** An update rule reads back as the token's name and validator, never required. */
  lemma DecodeUpdateRule(token: string)
    ensures DecodeRule(UpdateRule(token)) == Some(RuleMeaning(Parse(token), false))
  {
    var f := Parse(token);
    ParseColonFree(token);
    ValidatorShape(f.typeTag);
    DecodeRuleText(f.name, JoiBase(f.typeTag), "");
    assert UpdateRule(token) == "  " + f.name + ": " + JoiBase(f.typeTag) + "";
  }

  // ---------------------------------------------------------------------
  // Schema entries read back

  /** Strips the indentation and the closing brace of an entry. */
  lemma EntryFrame(inner: string)
    ensures var e := "    " + inner + "\n    }";
      HasPrefix(e, "    ") && HasSuffix(e, "\n    }") && |e| >= 10 && e[4..|e| - 6] == inner
  {
    var e := "    " + inner + "\n    }";
    assert e[..4] == "    ";
    assert e[|e| - 6..] == "\n    }";
    assert e[4..|e| - 6] == inner;
  }

  lemma DropKey(t: string, key: string)
    ensures HasSuffix(t + key, key) && (t + key)[..|t + key| - |key|] == t
  {
    assert (t + key)[|t + key| - |key|..] == key;
  }

  /** The pieces of the four shapes of an entry read back. */
  lemma DecodePlainPieces(name: string, t: string)
    ensures DecodeSchemaPieces([name, TypeKey, " " + t]) == Some(SchemaView(name, t, false, None))
  {
    assert (" " + t)[1..] == t;
  }

  lemma DecodeRequiredPieces(name: string, t: string)
    ensures DecodeSchemaPieces([name, TypeKey, " " + t + RequiredKey, " true"]) == Some(SchemaView(name, t, true, None))
  {
    assert (" " + t + RequiredKey)[1..] == t + RequiredKey;
    DropKey(t, RequiredKey);
  }

  lemma DecodeDefaultPieces(name: string, t: string, lit: string)
    ensures DecodeSchemaPieces([name, TypeKey, " " + t + DefaultKey, " " + lit])
         == Some(SchemaView(name, t, false, Some(Unquote(t, lit))))
  {
    assert (" " + t + DefaultKey)[1..] == t + DefaultKey;
    assert (" " + lit)[1..] == lit;
    DropKey(t, DefaultKey);
    assert !HasSuffix(t + DefaultKey, RequiredKey) by {
      assert (t + DefaultKey)[|t + DefaultKey| - 1] == 't';
    }
  }

  lemma DecodeRequiredDefaultPieces(name: string, t: string, lit: string)
    ensures DecodeSchemaPieces([name, TypeKey, " " + t + RequiredKey, " true" + DefaultKey, " " + lit])
         == Some(SchemaView(name, t, true, Some(Unquote(t, lit))))
  {
    assert (" " + t + RequiredKey)[1..] == t + RequiredKey;
    assert (" " + lit)[1..] == lit;
    DropKey(t, RequiredKey);
  }

  /**
   * The four shapes of an entry, regrouped so that each colon separates
   * two pieces. The keys are kept abstract: regrouping does not depend on
   * their text.
   */
  lemma RegroupPlain(name: string, k: string, t: string)
    ensures "    " + name + ":" + k + ":" + (" " + t + "" + "") + "\n    }"
         == "    " + (name + ":" + k + ":" + (" " + t)) + "\n    }"
  {
  }

  lemma RegroupRequired(name: string, k: string, t: string, r: string)
    ensures "    " + name + ":" + k + ":" + (" " + t + (r + ":" + " true") + "") + "\n    }"
         == "    " + (name + ":" + k + ":" + (" " + t + r) + ":" + " true") + "\n    }"
  {
  }

  lemma RegroupDefault(name: string, k: string, t: string, d: string, lit: string)
    ensures "    " + name + ":" + k + ":" + (" " + t + "" + (d + ":" + " " + lit)) + "\n    }"
         == "    " + (name + ":" + k + ":" + (" " + t + d) + ":" + (" " + lit)) + "\n    }"
  {
  }

  lemma RegroupRequiredDefault(name: string, k: string, t: string, r: string, d: string, lit: string)
    ensures "    " + name + ":" + k + ":" + (" " + t + (r + ":" + " true") + (d + ":" + " " + lit)) + "\n    }"
         == "    " + (name + ":" + k + ":" + (" " + t + r) + ":" + (" true" + d) + ":" + (" " + lit)) + "\n    }"
  {
  }

  /** A framed text of the four shapes reads back as its parts. */
  lemma DecodePlainText(e: string, name: string, t: string)
    requires ':' !in name && ':' !in t
    requires e == "    " + (name + ":" + TypeKey + ":" + (" " + t)) + "\n    }"
    ensures DecodeSchemaEntry(e) == Some(SchemaView(name, t, false, None))
  {
    var p := " " + t;
    EntryFrame(name + ":" + TypeKey + ":" + p);
    SplitThree(name, TypeKey, p);
    DecodePlainPieces(name, t);
  }

  lemma DecodeRequiredText(e: string, name: string, t: string)
    requires ':' !in name && ':' !in t
    requires e == "    " + (name + ":" + TypeKey + ":" + (" " + t + RequiredKey) + ":" + " true") + "\n    }"
    ensures DecodeSchemaEntry(e) == Some(SchemaView(name, t, true, None))
  {
    var p, q := " " + t + RequiredKey, " true";
    EntryFrame(name + ":" + TypeKey + ":" + p + ":" + q);
    SplitFour(name, TypeKey, p, q);
    DecodeRequiredPieces(name, t);
  }

  lemma DecodeDefaultText(e: string, name: string, t: string, lit: string)
    requires ':' !in name && ':' !in t && ':' !in lit
    requires e == "    " + (name + ":" + TypeKey + ":" + (" " + t + DefaultKey) + ":" + (" " + lit)) + "\n    }"
    ensures DecodeSchemaEntry(e) == Some(SchemaView(name, t, false, Some(Unquote(t, lit))))
  {
    var p, q := " " + t + DefaultKey, " " + lit;
    EntryFrame(name + ":" + TypeKey + ":" + p + ":" + q);
    SplitFour(name, TypeKey, p, q);
    DecodeDefaultPieces(name, t, lit);
  }

  lemma DecodeRequiredDefaultText(e: string, name: string, t: string, lit: string)
    requires ':' !in name && ':' !in t && ':' !in lit
    requires e == "    " + (name + ":" + TypeKey + ":" + (" " + t + RequiredKey) + ":" + (" true" + DefaultKey) + ":" + (" " + lit)) + "\n    }"
    ensures DecodeSchemaEntry(e) == Some(SchemaView(name, t, true, Some(Unquote(t, lit))))
  {
    var p, q, u := " " + t + RequiredKey, " true" + DefaultKey, " " + lit;
    EntryFrame(name + ":" + TypeKey + ":" + p + ":" + q + ":" + u);
    SplitFive(name, TypeKey, p, q, u);
    DecodeRequiredDefaultPieces(name, t, lit);
  }

  /** Colon-free parts print to an entry that reads back as those parts. */
  lemma DecodeLines(name: string, t: string, required: bool, lit: Option<string>)
    requires ':' !in name && ':' !in t && (lit.Some? ==> ':' !in lit.value)
    ensures DecodeSchemaEntry(EntryLines(name, t, required, lit))
         == Some(SchemaView(name, t, required, if lit.Some? then Some(Unquote(t, lit.value)) else None))
  {
    var e := EntryLines(name, t, required, lit);
    match lit {
      case None =>
        if required {
          RegroupRequired(name, TypeKey, t, RequiredKey);
          DecodeRequiredText(e, name, t);
        } else {
          RegroupPlain(name, TypeKey, t);
          DecodePlainText(e, name, t);
        }
      case Some(l) =>
        if required {
          RegroupRequiredDefault(name, TypeKey, t, RequiredKey, DefaultKey, l);
          DecodeRequiredDefaultText(e, name, t, l);
        } else {
          RegroupDefault(name, TypeKey, t, DefaultKey, l);
          DecodeDefaultText(e, name, t, l);
        }
    }
  }

  /**
   * A schema entry reads back as the token's name, its capitalised type,
   * the required flag and the default value, exactly as parsed.
   */
  lemma DecodeSchema(token: string)
    ensures DecodeSchemaEntry(SchemaEntry(token)) == Some(SchemaMeaning(Parse(token)))
  {
    var f := Parse(token);
    var t := TypeName(f);
    ParseColonFree(token);
    CapitalizeColonFree(f.typeTag);
    var lit := if f.defaultValue.Some? then Some(DefaultLiteral(t, f.defaultValue.value)) else None;
    if f.defaultValue.Some? {
      UnquoteDefault(t, f.defaultValue.value);
      assert ':' !in DefaultLiteral(t, f.defaultValue.value);
    }
    DecodeLines(f.name, t, IsRequired(f), lit);
  }

  /**
   * One list feeds all three renderers, so the i-th schema entry, the i-th
   * create rule and the i-th update rule all read back as the i-th
   * descriptor's name.
   */
  lemma FieldsAgree(fields: seq<string>)
    ensures |SchemaEntries(fields)| == |CreateRules(fields)| == |UpdateRules(fields)| == |fields|
    ensures forall i :: 0 <= i < |fields| ==>
      && DecodeSchemaEntry(SchemaEntries(fields)[i]).Some?
      && DecodeRule(CreateRules(fields)[i]).Some?
      && DecodeRule(UpdateRules(fields)[i]).Some?
      && DecodeSchemaEntry(SchemaEntries(fields)[i]).value.name == Parse(fields[i]).name
      && DecodeRule(CreateRules(fields)[i]).value.name == Parse(fields[i]).name
      && DecodeRule(UpdateRules(fields)[i]).value.name == Parse(fields[i]).name
  {
    forall i | 0 <= i < |fields|
      ensures DecodeSchemaEntry(SchemaEntries(fields)[i]) == Some(SchemaMeaning(Parse(fields[i])))
      ensures DecodeRule(CreateRules(fields)[i]) == Some(RuleMeaning(Parse(fields[i]), true))
      ensures DecodeRule(UpdateRules(fields)[i]) == Some(RuleMeaning(Parse(fields[i]), false))
    {
      DecodeSchema(fields[i]);
      DecodeCreateRule(fields[i]);
      DecodeUpdateRule(fields[i]);
    }
  }

  // ---------------------------------------------------------------------
  // Whole blocks

  lemma SchemaEntriesAppend(a: seq<string>, b: seq<string>)
    ensures SchemaEntries(a + b) == SchemaEntries(a) + SchemaEntries(b)
  {
  }

  lemma CreateRulesAppend(a: seq<string>, b: seq<string>)
    ensures CreateRules(a + b) == CreateRules(a) + CreateRules(b)
  {
  }

  lemma UpdateRulesAppend(a: seq<string>, b: seq<string>)
    ensures UpdateRules(a + b) == UpdateRules(a) + UpdateRules(b)
  {
  }

  /**
   * A schema block is its fields' entries in input order: one field gives
   * its entry alone, and two non-empty lists give their blocks joined by
   * the separator. An empty list gives the placeholder when asked for,
   * the empty text otherwise.
   */
  lemma {:induction false} SchemaFieldsCompose(a: seq<string>, b: seq<string>, placeholder: bool)
    ensures SchemaFields([], placeholder) == (if placeholder then SchemaPlaceholder else "")
    ensures |a| == 1 ==> SchemaFields(a, placeholder) == SchemaEntry(a[0])
    ensures |a| > 0 && |b| > 0 ==>
      SchemaFields(a + b, placeholder) == SchemaFields(a, placeholder) + SchemaSeparator + SchemaFields(b, placeholder)
  {
    if |a| > 0 && |b| > 0 {
      SchemaEntriesAppend(a, b);
      JoinAppend(SchemaSeparator, SchemaEntries(a), SchemaEntries(b));
    }
  }

  /** The same composition for the create rules. */
  lemma {:induction false} CreateFieldsCompose(a: seq<string>, b: seq<string>, placeholder: bool)
    ensures CreateFields([], placeholder) == (if placeholder then RulePlaceholder else "")
    ensures |a| == 1 ==> CreateFields(a, placeholder) == CreateRule(a[0])
    ensures |a| > 0 && |b| > 0 ==>
      CreateFields(a + b, placeholder) == CreateFields(a, placeholder) + RuleSeparator + CreateFields(b, placeholder)
  {
    if |a| > 0 && |b| > 0 {
      CreateRulesAppend(a, b);
      JoinAppend(RuleSeparator, CreateRules(a), CreateRules(b));
    }
  }

  /** The same composition for the update rules. */
  lemma {:induction false} UpdateFieldsCompose(a: seq<string>, b: seq<string>, placeholder: bool)
    ensures UpdateFields([], placeholder) == (if placeholder then RulePlaceholder else "")
    ensures |a| == 1 ==> UpdateFields(a, placeholder) == UpdateRule(a[0])
    ensures |a| > 0 && |b| > 0 ==>
      UpdateFields(a + b, placeholder) == UpdateFields(a, placeholder) + RuleSeparator + UpdateFields(b, placeholder)
  {
    if |a| > 0 && |b| > 0 {
      UpdateRulesAppend(a, b);
      JoinAppend(RuleSeparator, UpdateRules(a), UpdateRules(b));
    }
  }

  // ---------------------------------------------------------------------
  // Which rules are required

  /**
   * No field name spells `.required()` itself. The name is the only part of
   * a token a rule copies: the type goes through `JoiBase`.
   */
  ghost predicate NoModifierIn(fields: seq<string>)
  {
    forall i :: 0 <= i < |fields| ==> !Occurs(RequiredModifier, Parse(fields[i]).name)
  }

  lemma RuleTextsLackModifier()
    ensures !Occurs(RequiredModifier, "  ") && !Occurs(RequiredModifier, ": ")
    ensures !Occurs(RequiredModifier, RuleSeparator) && !Occurs(RequiredModifier, RulePlaceholder)
    ensures ' ' !in RequiredModifier && ':' !in RequiredModifier && ',' !in RequiredModifier
  {
    NotOccursShort(RequiredModifier, "  ");
    NotOccursShort(RequiredModifier, ": ");
    NotOccursShort(RequiredModifier, RuleSeparator);
    assert RequiredModifier[3] == 'q';
    NotOccursMissingChar(RequiredModifier, RulePlaceholder, 3);
  }

  /** An update rule never says `.required()` unless its field name does. */
  lemma UpdateRuleNotRequired(token: string)
    requires !Occurs(RequiredModifier, Parse(token).name)
    ensures !Occurs(RequiredModifier, UpdateRule(token))
  {
    var f := Parse(token);
    var w := RequiredModifier;
    RuleTextsLackModifier();
    NotOccursConcat(w, "  ", f.name);
    var a := "  " + f.name;
    NotOccursConcat(w, a, ": ");
    var b := a + ": ";
    assert b[|b| - 1] == ' ';
    var v := JoiBase(f.typeTag);
    ValidatorShape(f.typeTag);
    assert w[3] == 'q';
    NotOccursMissingChar(w, v, 3);
    NotOccursConcat(w, b, v);
  }

  lemma CreateRuleRequired(token: string)
    requires !Occurs(RequiredModifier, Parse(token).name)
    ensures Occurs(RequiredModifier, CreateRule(token)) <==> IsRequired(Parse(token))
  {
    UpdateRuleNotRequired(token);
    CreateExtendsUpdate(token);
    if IsRequired(Parse(token)) {
      OccursSelf(RequiredModifier);
      OccursRight(RequiredModifier, UpdateRule(token), RequiredModifier);
    } else {
      assert CreateRule(token) == UpdateRule(token);
    }
  }

  /** The update block never demands a field. */
  lemma UpdateNeverRequired(fields: seq<string>, placeholder: bool)
    requires NoModifierIn(fields)
    ensures !Occurs(RequiredModifier, UpdateFields(fields, placeholder))
  {
    RuleTextsLackModifier();
    if !(|fields| == 0 && placeholder) {
      var rules := UpdateRules(fields);
      forall i | 0 <= i < |rules|
        ensures !Occurs(RequiredModifier, rules[i])
      {
        UpdateRuleNotRequired(fields[i]);
      }
      JoinNotOccurs(RequiredModifier, RuleSeparator, rules);
    }
  }

  /** The create block demands a field exactly when some token's flag says `true`. */
  lemma CreateRequiredIff(fields: seq<string>, placeholder: bool)
    requires NoModifierIn(fields)
    ensures Occurs(RequiredModifier, CreateFields(fields, placeholder)) <==>
      exists i :: 0 <= i < |fields| && IsRequired(Parse(fields[i]))
  {
    RuleTextsLackModifier();
    var rules := CreateRules(fields);
    if i :| 0 <= i < |fields| && IsRequired(Parse(fields[i])) {
      CreateRuleRequired(fields[i]);
      JoinOccurs(RequiredModifier, RuleSeparator, rules, i);
    } else if !(|fields| == 0 && placeholder) {
      forall i | 0 <= i < |rules|
        ensures !Occurs(RequiredModifier, rules[i])
      {
        CreateRuleRequired(fields[i]);
      }
      JoinNotOccurs(RequiredModifier, RuleSeparator, rules);
    }
  }

  // ---------------------------------------------------------------------
  // Two descriptors worked through

  /** What the two worked descriptors mean, before any token is involved. */
  lemma ColorMeaning(f: Field)
    requires f == Field("color", "string", "false", Some("red"))
    ensures SchemaMeaning(f) == SchemaView("color", "String", false, Some("red"))
    ensures RuleMeaning(f, true) == RuleView("color", "joi.string()", false)
    ensures DefaultLiteral(TypeName(f), "red") == "'red'"
  {
    LowerFixed(f.typeTag);
    assert Lower(f.requiredTag)[0] == 'f';
    assert Capitalize(f.typeTag) == [Upper('s')] + "tring";
  }

  lemma CountMeaning(f: Field)
    requires f == Field("count", "number", "true", Some("0"))
    ensures SchemaMeaning(f) == SchemaView("count", "Number", true, Some("0"))
    ensures RuleMeaning(f, true) == RuleView("count", "joi.number()", true)
    ensures RuleMeaning(f, false) == RuleView("count", "joi.number()", false)
    ensures DefaultLiteral(TypeName(f), "0") == "0"
  {
    LowerFixed(f.typeTag);
    LowerFixed(f.requiredTag);
    assert Capitalize(f.typeTag) == [Upper('n')] + "umber";
  }

  /**
   * `color:string:false:red`: the entry reads back as an optional `String`
   * with default `red`, written quoted; the create rule is an optional
   * string validator.
   */
  lemma ColorField(tok: string)
    requires tok == "color" + ":" + "string" + ":" + "false" + ":" + "red"
    ensures DecodeSchemaEntry(SchemaEntry(tok)) == Some(SchemaView("color", "String", false, Some("red")))
    ensures DefaultLiteral(TypeName(Parse(tok)), "red") == "'red'"
    ensures DecodeRule(CreateRule(tok)) == Some(RuleView("color", "joi.string()", false))
  {
    ParseColor(tok);
    ColorMeaning(Parse(tok));
    DecodeSchema(tok);
    DecodeCreateRule(tok);
  }

  /**
   * An entry is the text functions.js:11-17 builds: the name and type
   * line, then the `required` line and the `default` line when they apply,
   * then the closing brace.
   */
  lemma EntryLinesTemplate(name: string, t: string, required: bool, literal: Option<string>)
    ensures EntryLines(name, t, required, literal)
         == "    " + name + ": {\n      type: " + t
            + (if required then ",\n      required: true" else "")
            + (if literal.Some? then ",\n      default: " + literal.value else "")
            + "\n    }"
  {
    var r := if required then RequiredKey + ":" + " true" else "";
    var d := if literal.Some? then DefaultKey + ":" + " " + literal.value else "";
    RegroupTemplate(name, TypeKey, t, r, d);
    assert ":" + TypeKey + ":" + " " == ": {\n      type: ";
    assert RequiredKey + ":" + " true" == ",\n      required: true";
    if literal.Some? {
      assert DefaultKey + ":" + " " == ",\n      default: ";
      RegroupDefaultLine(DefaultKey, literal.value);
    }
  }

  lemma RegroupTemplate(name: string, k: string, t: string, r: string, d: string)
    ensures "    " + name + ":" + k + ":" + (" " + t + r + d) + "\n    }"
         == "    " + name + (":" + k + ":" + " ") + t + r + d + "\n    }"
  {
  }

  lemma RegroupDefaultLine(k: string, v: string)
    ensures k + ":" + " " + v == (k + ":" + " ") + v
  {
  }

  /** The exact text functions.js prints for `color:string:false:red`. */
  lemma ColorText(tok: string)
    requires tok == "color" + ":" + "string" + ":" + "false" + ":" + "red"
    ensures SchemaEntry(tok) == "    " + "color" + ": {\n      type: " + "String" + ",\n      default: 'red'" + "\n    }"
    ensures CreateRule(tok) == "  color: joi.string()"
    ensures UpdateRule(tok) == "  color: joi.string()"
  {
    ParseColor(tok);
    var f := Parse(tok);
    ColorMeaning(f);
    TypeNameIsString(f.typeTag);
    assert SchemaEntry(tok) == EntryLines("color", "String", false, Some("'red'"));
    EntryLinesTemplate("color", "String", false, Some("'red'"));
    assert ",\n      default: " + "'red'" == ",\n      default: 'red'";
  }

  /**
   * `count:number:true:0`: the entry reads back as a required `Number`
   * with default `0`, written raw; the create rule is a required number
   * validator and the update rule the same validator, not required.
   */
  lemma CountField(tok: string)
    requires tok == "count" + ":" + "number" + ":" + "true" + ":" + "0"
    ensures DecodeSchemaEntry(SchemaEntry(tok)) == Some(SchemaView("count", "Number", true, Some("0")))
    ensures DefaultLiteral(TypeName(Parse(tok)), "0") == "0"
    ensures DecodeRule(CreateRule(tok)) == Some(RuleView("count", "joi.number()", true))
    ensures DecodeRule(UpdateRule(tok)) == Some(RuleView("count", "joi.number()", false))
  {
    ParseCount(tok);
    CountMeaning(Parse(tok));
    DecodeSchema(tok);
    DecodeCreateRule(tok);
    DecodeUpdateRule(tok);
  }

  /** The exact entry functions.js prints for `count:number:true:0`. */
  lemma CountText(tok: string)
    requires tok == "count" + ":" + "number" + ":" + "true" + ":" + "0"
    ensures SchemaEntry(tok) == "    " + "count" + ": {\n      type: " + "Number" + ",\n      required: true" + ",\n      default: 0" + "\n    }"
  {
    ParseCount(tok);
    var f := Parse(tok);
    CountMeaning(f);
    assert TypeName(f) == "Number";
    assert SchemaEntry(tok) == EntryLines("count", "Number", true, Some("0"));
    EntryLinesTemplate("count", "Number", true, Some("0"));
    assert ",\n      default: " + "0" == ",\n      default: 0";
  }

  /** The exact rules functions.js prints for `count:number:true:0`. */
  lemma CountRuleText(tok: string)
    requires tok == "count" + ":" + "number" + ":" + "true" + ":" + "0"
    ensures CreateRule(tok) == "  count: joi.number().required()"
    ensures UpdateRule(tok) == "  count: joi.number()"
  {
    ParseCount(tok);
    var f := Parse(tok);
    LowerFixed(f.typeTag);
    LowerFixed(f.requiredTag);
    assert JoiBase(f.typeTag) == "joi.number()";
    assert "  " + "count" + ": " + "joi.number()" == "  count: joi.number()";
    assert UpdateRule(tok) == "  count: joi.number()";
    CreateExtendsUpdate(tok);
    assert "  count: joi.number()" + RequiredModifier == "  count: joi.number().required()";
  }

}
