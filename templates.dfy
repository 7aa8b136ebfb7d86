/**
 * The model and validation templates of the four scripts: fixed text
 * around the model name, the capitalised name and the rendered blocks.
 * Each template is written as the text before its first rendered slot,
 * the slots with the text between them, and the text after the last one.
 */
module Templates {
  import opened Optional
  import opened Strings
  import opened Descriptor
  import opened Renderers
  import opened FileSystem

  // ---------------------------------------------------------------------
  // index.js and create-model.js: the same two templates

  function ModelHead(n: string): string
  {
    "import mongoose from 'mongoose';\n\nconst " + n + "Schema = new mongoose.Schema({\n"
  }

  function ModelTail(n: string, cap: string): string
  {
    "\n}, { timestamps: true });\n\nexport default mongoose.model('" + cap + "', " + n + "Schema);\n"
  }

  /** `templateModel`: the schema block between the schema's opening and closing lines. */
  function ModelTemplate(n: string, schema: string, cap: string): string
  {
    ModelHead(n) + schema + ModelTail(n, cap)
  }

  function ValidationHead(n: string): string
  {
    "import joi from \"joi\";\n\nexport default function " + n + "Validation(body){\n    const " + n + "Create = joi.object({\n    "
  }

  function ValidationMiddle(n: string): string
  {
    "\n    })\n\n    const " + n + "Update = joi.object({\n    "
  }

  function ValidationTail(n: string): string
  {
    "\n    })\n\n    return {\n        " + n + "Create: " + n + "Create.validate(body),\n        "
      + n + "Update: " + n + "Update.validate(body),\n    }\n}\n"
  }

  /** `templateValidation`: the create block, then the update block. */
  function ValidationTemplate(n: string, create: string, update: string): string
  {
    ValidationHead(n) + create + ValidationMiddle(n) + update + ValidationTail(n)
  }

  // ---------------------------------------------------------------------
  // Fixed fields of the user and upload families

  /** A required `String` field as the templates spell it out. */
  function FixedEntry(name: string): string
  {
    "    " + name + ": {\n" + "      type: String,\n" + "      required: true\n" + "    }"
  }

  /** A fixed validation line: the name and its validator. */
  function RuleLine(name: string, validator: string): string
  {
    name + ": " + validator
  }

  // ---------------------------------------------------------------------
  // create-user.js

  function UserModelHead(n: string): string
  {
    "\nimport mongoose from 'mongoose';\nimport bcrypt from 'bcrypt';\n\nconst " + n + "Schema = new mongoose.Schema({\n"
  }

  /** The password-hashing hooks, which name `userSchema` whatever the model is called. */
  const PasswordHooks: string :=
    "userSchema.pre(\"save\", async function(){\n  if(this.isModified(\"password\")){\n"
    + "    this.password = await bcrypt.hash(this.password, 10)\n  }\n})\n\n"
    + "userSchema.pre(\"findOneAndUpdate\", async function () {\n  let update = this.getUpdate();\n\n"
    + "  if (update.password) {\n    const hashed = await bcrypt.hash(update.password, 10);\n\n"
    + "    this.setUpdate({\n      ...update,\n      password: hashed\n    });\n  }\n})\n\n"

  function UserModelTail(n: string, cap: string): string
  {
    "\n}, { timestamps: true });\n\n" + PasswordHooks + "export default mongoose.model('" + cap + "', " + n + "Schema);\n"
  }

  /** The schema entries the user template writes before the rendered ones. */
  const UserFixedSchema: string := FixedEntry("email") + ",\n" + FixedEntry("password") + ",\n"

  function UserModelTemplate(n: string, schema: string, cap: string): string
  {
    UserModelHead(n) + UserFixedSchema + schema + UserModelTail(n, cap)
  }

  const EmailValidator: string := "joi.string().email()"
  const StringValidator: string := "joi.string()"

  const UserFixedCreate: string :=
    RuleLine("email", EmailValidator + RequiredModifier) + ",\n    "
    + RuleLine("password", StringValidator + RequiredModifier) + ",\n    "

  const UserFixedUpdate: string :=
    "  " + RuleLine("email", EmailValidator) + ",\n      " + RuleLine("password", StringValidator) + ",\n    "

  function UserValidationTail(n: string): string
  {
    "\n    })\n\n    const " + n + "Login = joi.object({\n      email: joi.string().email(),\n      password: joi.string(),\n    })\n\n"
      + "    return {\n        " + n + "Create: " + n + "Create.validate(body),\n        "
      + n + "Update: " + n + "Update.validate(body),\n        "
      + n + "Login: " + n + "Login.validate(body),\n    }\n}\n"
  }

  /** The user `templateValidation`: create, update and login schemas. */
  function UserValidationTemplate(n: string, create: string, update: string): string
  {
    ValidationHead(n) + UserFixedCreate + create + ValidationMiddle(n) + UserFixedUpdate + update + UserValidationTail(n)
  }

  // ---------------------------------------------------------------------
  // create-multer.js

  const MulterFixedSchema: string := FixedEntry("name") + ",\n" + FixedEntry("alt") + ",\n"

  function MulterModelTemplate(n: string, schema: string, cap: string): string
  {
    ModelHead(n) + MulterFixedSchema + schema + ModelTail(n, cap)
  }

  const MulterFixedCreate: string :=
    "  " + RuleLine("name", StringValidator + RequiredModifier) + ",\n      "
    + RuleLine("alt", StringValidator + RequiredModifier) + ",\n    "

  function MulterValidationHead(n: string): string
  {
    "import joi from \"joi\";\nexport default function " + n + "Validation(body){\n    const " + n + "Create = joi.object({\n    "
  }

  function MulterValidationTail(n: string): string
  {
    "\n    })\n\n    return {\n        " + n + "Create: " + n + "Create.validate(body),\n    }\n}\n"
  }

  /** The upload `templateValidation`: a create schema only. */
  function MulterValidationTemplate(n: string, create: string): string
  {
    MulterValidationHead(n) + MulterFixedCreate + create + MulterValidationTail(n)
  }

  // ---------------------------------------------------------------------
  // The text of a generated file

  /**
   * The text of a model or validation file: the family's template around
   * the rendered blocks. index.js and create-model.js render with the
   * placeholder flag, create-user.js and create-multer.js without.
   * Controllers, routers and middlewares are fixed text around the names
   * and are not spelt out here.
   */
  function FileText(c: Content): (r: Option<string>)
    ensures r.Some? <==> c.ModelFile? || c.ValidationFile?
  {
    match c
    case ModelFile(family, n, fields, cap) =>
      if family == User then Some(UserModelTemplate(n, SchemaFields(fields, false), cap))
      else if family == Upload then Some(MulterModelTemplate(n, SchemaFields(fields, false), cap))
      else Some(ModelTemplate(n, SchemaFields(fields, true), cap))
    case ValidationFile(family, n, fields) =>
      if family == User then Some(UserValidationTemplate(n, CreateFields(fields, false), UpdateFields(fields, false)))
      else if family == Upload then Some(MulterValidationTemplate(n, CreateFields(fields, false)))
      else Some(ValidationTemplate(n, CreateFields(fields, true), UpdateFields(fields, true)))
    case _ => None
  }

  // ---------------------------------------------------------------------
  // The rendered blocks can be read back out of a file

  /** A model file determines the schema block it was written with. */
  lemma ModelSlot(n: string, s1: string, s2: string, cap: string)
    requires ModelTemplate(n, s1, cap) == ModelTemplate(n, s2, cap)
    ensures s1 == s2
  {
    SlotCancel(ModelHead(n), s1, s2, ModelTail(n, cap));
  }

  lemma UserModelSlot(n: string, s1: string, s2: string, cap: string)
    requires UserModelTemplate(n, s1, cap) == UserModelTemplate(n, s2, cap)
    ensures s1 == s2
  {
    assert UserModelTemplate(n, s1, cap) == (UserModelHead(n) + UserFixedSchema) + s1 + UserModelTail(n, cap);
    assert UserModelTemplate(n, s2, cap) == (UserModelHead(n) + UserFixedSchema) + s2 + UserModelTail(n, cap);
    SlotCancel(UserModelHead(n) + UserFixedSchema, s1, s2, UserModelTail(n, cap));
  }

  lemma MulterModelSlot(n: string, s1: string, s2: string, cap: string)
    requires MulterModelTemplate(n, s1, cap) == MulterModelTemplate(n, s2, cap)
    ensures s1 == s2
  {
    assert MulterModelTemplate(n, s1, cap) == (ModelHead(n) + MulterFixedSchema) + s1 + ModelTail(n, cap);
    assert MulterModelTemplate(n, s2, cap) == (ModelHead(n) + MulterFixedSchema) + s2 + ModelTail(n, cap);
    SlotCancel(ModelHead(n) + MulterFixedSchema, s1, s2, ModelTail(n, cap));
  }

  /** An upload validation file determines its create block. */
  lemma MulterValidationSlot(n: string, c1: string, c2: string)
    requires MulterValidationTemplate(n, c1) == MulterValidationTemplate(n, c2)
    ensures c1 == c2
  {
    assert MulterValidationTemplate(n, c1) == (MulterValidationHead(n) + MulterFixedCreate) + c1 + MulterValidationTail(n);
    assert MulterValidationTemplate(n, c2) == (MulterValidationHead(n) + MulterFixedCreate) + c2 + MulterValidationTail(n);
    SlotCancel(MulterValidationHead(n) + MulterFixedCreate, c1, c2, MulterValidationTail(n));
  }

  lemma SlotCancel(head: string, s1: string, s2: string, tail: string)
    requires head + s1 + tail == head + s2 + tail
    ensures s1 == s2
  {
    var t1, t2 := head + s1 + tail, head + s2 + tail;
    assert |s1| == |s2|;
    assert s1 == t1[|head|..|head| + |s1|];
    assert s2 == t2[|head|..|head| + |s2|];
  }

  // ---------------------------------------------------------------------
  // The fixed fields are what the renderers print for them

  /** `email:String:true` and friends: a colon-free name, type `String`, required. */
  function RequiredStringToken(name: string): string
  {
    name + ":" + "String" + ":" + "true"
  }

  function RequiredStringRuleToken(name: string): string
  {
    name + ":" + "string" + ":" + "true"
  }

  lemma TypeKeyLines()
    ensures TypeKey == " {\n" + "      type"
  {
  }

  lemma RequiredKeyLines()
    ensures RequiredKey == ",\n" + "      required"
  {
  }

  lemma EntryLinesOfFixed()
    ensures ":" + " {\n" == ": {\n"
    ensures "      type" + ":" + " " + "String" + ",\n" == "      type: String,\n"
    ensures "      required" + ":" + " true" + "\n" == "      required: true\n"
    ensures "\n    }" == "\n" + "    }"
  {
  }

  /** Regrouping the pieces of an entry into the lines of the fixed text. */
  lemma RegroupFixed(name: string, k1: string, k2: string, t: string, r1: string, r2: string, c1: string, c2: string)
    ensures "    " + name + ":" + (k1 + k2) + ":" + (" " + t + ((r1 + r2) + ":" + " true") + "") + (c1 + c2)
         == "    " + name + (":" + k1) + (k2 + ":" + " " + t + r1) + (r2 + ":" + " true" + c1) + c2
  {
  }

  lemma FixedEntryText(name: string)
    ensures EntryLines(name, "String", true, None) == FixedEntry(name)
  {
    assert EntryLines(name, "String", true, None)
        == "    " + name + ":" + TypeKey + ":" + (" " + "String" + (RequiredKey + ":" + " true") + "") + "\n    }";
    TypeKeyLines();
    RequiredKeyLines();
    EntryLinesOfFixed();
    RegroupFixed(name, " {\n", "      type", "String", ",\n", "      required", "\n", "    }");
  }

  /** A fixed schema field is the entry the schema renderer prints for a required `String` token of that name. */
  lemma FixedEntryRendered(name: string)
    requires ':' !in name
    ensures FixedEntry(name) == SchemaEntry(RequiredStringToken(name))
  {
    var tok := RequiredStringToken(name);
    SplitThree(name, "String", "true");
    var f := Parse(tok);
    assert f == Field(name, "String", "true", None);
    LowerFixed(f.requiredTag);
    assert TypeName(f) == "String";
    FixedEntryText(name);
  }

  /**
   * A fixed `joi.string()` line is the create rule (with `.required()`) or
   * the update rule (without) of a required `string` token of that name.
   */
  lemma FixedRuleRendered(name: string)
    requires ':' !in name
    ensures "  " + RuleLine(name, StringValidator + RequiredModifier) == CreateRule(RequiredStringRuleToken(name))
    ensures "  " + RuleLine(name, StringValidator) == UpdateRule(RequiredStringRuleToken(name))
  {
    RequiredStringRuleParse(name);
  }

  lemma RequiredStringRuleParse(name: string)
    requires ':' !in name
    ensures var f := Parse(RequiredStringRuleToken(name));
      f.name == name && IsRequired(f) && JoiBase(f.typeTag) == StringValidator
  {
    SplitThree(name, "string", "true");
    var f := Parse(RequiredStringRuleToken(name));
    assert f == Field(name, "string", "true", None);
    LowerFixed(f.requiredTag);
    LowerFixed(f.typeTag);
  }

  lemma DecodeRuleLine(name: string, v: string, m: string)
    requires ':' !in name && ':' !in v && ':' !in m
    requires m == RequiredModifier || (m == "" && !HasSuffix(v, RequiredModifier))
    ensures DecodeRule("  " + RuleLine(name, v + m)) == Some(RuleView(name, v, m != ""))
  {
    assert "  " + RuleLine(name, v + m) == "  " + name + ": " + v + m;
    DecodeRuleText(name, v, m);
  }

  lemma EmailValidatorShape()
    ensures ':' !in EmailValidator && ':' !in RequiredModifier
    ensures !HasSuffix(EmailValidator, RequiredModifier)
  {
    var v := EmailValidator;
    assert v[|v| - 3] == 'l' && RequiredModifier[|RequiredModifier| - 3] == 'd';
  }

  /** The email line is a string validator with an email check, required on create only. */
  lemma EmailRules()
    ensures DecodeRule("  " + RuleLine("email", EmailValidator + RequiredModifier)) == Some(RuleView("email", EmailValidator, true))
    ensures DecodeRule("  " + RuleLine("email", EmailValidator)) == Some(RuleView("email", EmailValidator, false))
  {
    EmailValidatorShape();
    DecodeRuleLine("email", EmailValidator, RequiredModifier);
    DecodeRuleLine("email", EmailValidator, "");
    assert EmailValidator + "" == EmailValidator;
  }

  // ---------------------------------------------------------------------
  // The fixed fields come first, then the rendered ones

  /** Two fixed schema fields then the rendered block: the block of the two tokens followed by the fields. */
  lemma {:induction false} FixedPairSchema(x: string, y: string, fields: seq<string>)
    requires ':' !in x && ':' !in y
    ensures FixedEntry(x) + ",\n" + FixedEntry(y) + ",\n" + SchemaFields(fields, false)
         == SchemaFields([RequiredStringToken(x), RequiredStringToken(y)] + fields, false)
            + (if |fields| == 0 then SchemaSeparator else "")
  {
    var tx, ty := RequiredStringToken(x), RequiredStringToken(y);
    FixedEntryRendered(x);
    FixedEntryRendered(y);
    SchemaFieldsCompose([tx], [ty], false);
    SchemaFieldsCompose([ty], [], false);
    assert [tx] + [ty] == [tx, ty];
    if |fields| > 0 {
      SchemaFieldsCompose([tx, ty], fields, false);
    } else {
      assert [tx, ty] + fields == [tx, ty];
    }
  }

  /**
   * The user schema: `email` and `password` as required `String` fields,
   * then the user's fields; with no fields the block ends in a separator.
   */
  lemma UserSchemaRendered(fields: seq<string>)
    ensures UserFixedSchema + SchemaFields(fields, false)
         == SchemaFields([RequiredStringToken("email"), RequiredStringToken("password")] + fields, false)
            + (if |fields| == 0 then SchemaSeparator else "")
  {
    FixedPairSchema("email", "password", fields);
  }

  /** The upload schema: `name` and `alt` as required `String` fields, then the given fields. */
  lemma MulterSchemaRendered(fields: seq<string>)
    ensures MulterFixedSchema + SchemaFields(fields, false)
         == SchemaFields([RequiredStringToken("name"), RequiredStringToken("alt")] + fields, false)
            + (if |fields| == 0 then SchemaSeparator else "")
  {
    FixedPairSchema("name", "alt", fields);
  }

  lemma IndentedSeparator()
    ensures ",\n      " == RuleSeparator + "  "
  {
  }

  lemma RegroupRules(a: string, b: string, indented: string, sep: string, tail: string)
    requires indented == sep + "  "
    ensures "  " + a + indented + b + sep + tail == ("  " + a) + sep + (("  " + b) + sep + tail)
  {
  }

  /** Two rule lines, the second indented like the rendered ones, then a rendered block. */
  lemma {:induction false} PairThenRules(r1: string, r2: string, rest: seq<string>)
    requires |rest| > 0
    ensures Join(RuleSeparator, [r1, r2] + rest) == r1 + RuleSeparator + (r2 + RuleSeparator + Join(RuleSeparator, rest))
  {
    JoinAppend(RuleSeparator, [r1], [r2] + rest);
    JoinAppend(RuleSeparator, [r2], rest);
    assert [r1] + ([r2] + rest) == [r1, r2] + rest;
  }

  /** Two fixed rule lines that are rendered rules, then a rendered create block. */
  lemma {:induction false} FixedPairCreate(l1: string, l2: string, t1: string, t2: string, fields: seq<string>)
    requires "  " + l1 == CreateRule(t1) && "  " + l2 == CreateRule(t2)
    ensures "  " + l1 + ",\n      " + l2 + RuleSeparator + CreateFields(fields, false)
         == CreateFields([t1, t2] + fields, false) + (if |fields| == 0 then RuleSeparator else "")
  {
    IndentedSeparator();
    var block := CreateFields(fields, false);
    RegroupRules(l1, l2, ",\n      ", RuleSeparator, block);
    var all := [t1, t2] + fields;
    assert CreateRules(all) == [CreateRule(t1), CreateRule(t2)] + CreateRules(fields);
    if |fields| > 0 {
      PairThenRules(CreateRule(t1), CreateRule(t2), CreateRules(fields));
    } else {
      assert CreateRules(all) == [CreateRule(t1), CreateRule(t2)];
      assert Join(RuleSeparator, [CreateRule(t1), CreateRule(t2)]) == CreateRule(t1) + RuleSeparator + CreateRule(t2);
    }
  }

  /** The upload create block: `name` and `alt` as required string rules, then the given fields' rules. */
  lemma MulterCreateRendered(fields: seq<string>)
    ensures MulterFixedCreate + CreateFields(fields, false)
         == CreateFields([RequiredStringRuleToken("name"), RequiredStringRuleToken("alt")] + fields, false)
            + (if |fields| == 0 then RuleSeparator else "")
  {
    var ln, la := RuleLine("name", StringValidator + RequiredModifier), RuleLine("alt", StringValidator + RequiredModifier);
    FixedRuleRendered("name");
    FixedRuleRendered("alt");
    FixedPairCreate(ln, la, RequiredStringRuleToken("name"), RequiredStringRuleToken("alt"), fields);
  }

  /** A fixed line, then a fixed line that is a rendered update rule, then a rendered update block. */
  lemma {:induction false} FixedPairUpdate(l1: string, l2: string, t2: string, fields: seq<string>)
    requires "  " + l2 == UpdateRule(t2)
    ensures "  " + l1 + ",\n      " + l2 + RuleSeparator + UpdateFields(fields, false)
         == "  " + l1 + RuleSeparator + UpdateFields([t2] + fields, false) + (if |fields| == 0 then RuleSeparator else "")
  {
    IndentedSeparator();
    var block := UpdateFields(fields, false);
    RegroupRules(l1, l2, ",\n      ", RuleSeparator, block);
    var all := [t2] + fields;
    assert UpdateRules(all) == [UpdateRule(t2)] + UpdateRules(fields);
    if |fields| > 0 {
      JoinAppend(RuleSeparator, [UpdateRule(t2)], UpdateRules(fields));
    } else {
      assert UpdateRules(all) == [UpdateRule(t2)];
    }
  }

  /**
   * The user update block: an email rule without `.required()`, the
   * update rule of `password`, then the given fields' update rules.
   */
  lemma UserUpdateRendered(fields: seq<string>)
    ensures UserFixedUpdate + UpdateFields(fields, false)
         == "  " + RuleLine("email", EmailValidator) + RuleSeparator
            + UpdateFields([RequiredStringRuleToken("password")] + fields, false)
            + (if |fields| == 0 then RuleSeparator else "")
  {
    FixedRuleRendered("password");
    FixedPairUpdate(RuleLine("email", EmailValidator), RuleLine("password", StringValidator), RequiredStringRuleToken("password"), fields);
  }

  // ---------------------------------------------------------------------
  // The user and upload files read as if their fixed fields had been given

  /** The fixed `email` and `password` descriptors of the user model. */
  const UserTokens: seq<string> := [RequiredStringToken("email"), RequiredStringToken("password")]
  /** The fixed `name` and `alt` descriptors of the upload model. */
  const MulterTokens: seq<string> := [RequiredStringToken("name"), RequiredStringToken("alt")]

  /** Regrouping a fixed block with the rendered block after it. */
  lemma Splice(head: string, fixed: string, block: string, tail: string, whole: string)
    requires fixed + block == whole
    ensures head + fixed + block + tail == head + whole + tail
  {
  }

  /** The user model is the rendering of its two fixed fields followed by the given ones. */
  lemma UserModelText(n: string, fields: seq<string>, cap: string)
    ensures FileText(ModelFile(User, n, fields, cap))
         == Some(UserModelHead(n) + (SchemaFields(UserTokens + fields, false) + (if |fields| == 0 then SchemaSeparator else ""))
                 + UserModelTail(n, cap))
  {
    UserSchemaRendered(fields);
    Splice(UserModelHead(n), UserFixedSchema, SchemaFields(fields, false), UserModelTail(n, cap),
           SchemaFields(UserTokens + fields, false) + (if |fields| == 0 then SchemaSeparator else ""));
  }

  /** The upload model is the rendering of its two fixed fields followed by the given ones. */
  lemma MulterModelText(n: string, fields: seq<string>, cap: string)
    ensures FileText(ModelFile(Upload, n, fields, cap))
         == Some(ModelHead(n) + (SchemaFields(MulterTokens + fields, false) + (if |fields| == 0 then SchemaSeparator else ""))
                 + ModelTail(n, cap))
  {
    MulterSchemaRendered(fields);
    Splice(ModelHead(n), MulterFixedSchema, SchemaFields(fields, false), ModelTail(n, cap),
           SchemaFields(MulterTokens + fields, false) + (if |fields| == 0 then SchemaSeparator else ""));
  }

  /** The upload create schema is the rendering of its two fixed rules followed by the given ones. */
  lemma MulterValidationText(n: string, fields: seq<string>)
    ensures FileText(ValidationFile(Upload, n, fields))
         == Some(MulterValidationHead(n)
                 + (CreateFields([RequiredStringRuleToken("name"), RequiredStringRuleToken("alt")] + fields, false)
                    + (if |fields| == 0 then RuleSeparator else ""))
                 + MulterValidationTail(n))
  {
    MulterCreateRendered(fields);
    Splice(MulterValidationHead(n), MulterFixedCreate, CreateFields(fields, false), MulterValidationTail(n),
           CreateFields([RequiredStringRuleToken("name"), RequiredStringRuleToken("alt")] + fields, false)
           + (if |fields| == 0 then RuleSeparator else ""));
  }

  /** The user update schema: the optional email rule, then the update rendering of `password` and the given fields. */
  lemma UserValidationText(n: string, fields: seq<string>)
    ensures FileText(ValidationFile(User, n, fields))
         == Some(ValidationHead(n) + UserFixedCreate + CreateFields(fields, false) + ValidationMiddle(n)
                 + ("  " + RuleLine("email", EmailValidator) + RuleSeparator
                    + UpdateFields([RequiredStringRuleToken("password")] + fields, false)
                    + (if |fields| == 0 then RuleSeparator else ""))
                 + UserValidationTail(n))
  {
    var c, u := CreateFields(fields, false), UpdateFields(fields, false);
    var w := "  " + RuleLine("email", EmailValidator) + RuleSeparator
             + UpdateFields([RequiredStringRuleToken("password")] + fields, false)
             + (if |fields| == 0 then RuleSeparator else "");
    UserUpdateRendered(fields);
    Splice(ValidationHead(n) + UserFixedCreate + c + ValidationMiddle(n), UserFixedUpdate, u, UserValidationTail(n), w);
  }
}
