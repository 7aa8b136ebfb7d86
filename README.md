# mrmongoo-cli in Dafny

mrmongoo-cli is a set of Node scripts that scaffold a Mongoose/Express
resource. You give a model name and field descriptors such as
`age:number:false:18`. The script creates the `models`, `validations`
(or `validation`), `controllers` and `routes` directories if they are
missing. It refuses to overwrite any of its output files, then writes a
Mongoose model, a joi validation module, a controller and a router.

There are four scripts:

- `index.js` is the original all-in-one generator.
- `create-model.js` is the plain generator.
- `create-user.js` also writes fixed `email`/`password` fields, password hooks and an `auth.js` middleware.
- `create-multer.js` also writes fixed `name`/`alt` fields, a create-only validation and a `multer.js` middleware.

The shared logic lives in `functions.js`:

- the descriptor mini-language;
- three text renderers (the schema block, the create rules and the update rules);
- `capitalize`;
- the collision guard `check`.

## What the model contains

- `Strings`:
  - ASCII case mapping (`toUpperCase`, `toLowerCase`) and `capitalize`;
  - JavaScript `split(":")` and `join`;
  - substring occurrence.
- `Descriptor`: a token becomes a `Field`. The first four `:`-pieces are read positionally. The destructuring defaults `"String"` and `"false"` apply only to missing pieces. A default exists exactly when there is a fourth piece, and pieces after it are dropped.
- `Renderers` holds the three renderers of `functions.js` with their placeholder flag. `index.js`'s own copies behave as these with the flag set. Decoders read a rendered schema entry or rule back into its meaning, and the rendering lemmas are round trips through those decoders.
- `FileSystem`:
  - a `Disk` class whose fields are the written files (a map from path to content) and the directories;
  - `existsSync`, `mkdirSync` guarded by `existsSync`, `writeFileSync`, and `check`;
  - the outcome of a run;
  - `Verdict`, which is the first existing path in checking order;
  - `Written`, which is the files after a sequence of writes.
- `Layout`: the directory names, the output paths, and how an absent model name is printed and capitalised.
- `Templates`:
  - the model and validation templates of each script, as fixed text around the slots;
  - `FileText`, which maps a written content to its text;
  - lemmas showing that the user and upload templates read as if their fixed fields had been given on the command line.
- `IndexScript`, `CreateModel`, `CreateUser`, `CreateMulter`: each script's run as a straight-line method over a `Disk`. It creates directories, then runs the guards in the script's order, then makes the writes in the script's order. Each run has a `Plan` (its writes), a `Checks` list (its guards) and a lemma showing that a run that passes its guards writes a fresh plan.

`index.js` and `create-model.js` print usage and exit when no model name is given (index.js:8-12, create-model.js:8-12). `create-user.js` and `create-multer.js` do not check their arguments. With no name, they render the name as `undefined` in paths and templates, and `capitalize(undefined)` gives `""`.

## Model

| member | source | states |
|---|---|---|
| Strings.Capitalize | functions.js:85-88 | the result has the input's length; every character after the first is unchanged; a non-empty input's first character is no longer lower-case and has the same lower-case form |
| Strings.Upper | functions.js:87 | no contract of its own: `toUpperCase` of one character, changing only `a`-`z`; `Strings.Capitalize` and `Strings.LowerCharInverse` state what it does |
| Strings.LowerChar | functions.js:12 | no contract of its own: `toLowerCase` of one character, changing only `A`-`Z`; `Strings.LowerCharInverse` states which characters map to a letter |
| Strings.Lower | functions.js:12 | no contract of its own: `toLowerCase` of a string, character by character; `Strings.LowerIdempotent` and `Strings.LowerFixed` state its properties |
| Strings.CapitalizeIdempotent | functions.js:85-88 | capitalising twice is capitalising once |
| Strings.CapitalizeSameLetters | functions.js:85-88 | capitalising changes no letter beyond its case |
| Strings.LowerIdempotent | functions.js:12 | `toLowerCase` applied twice equals applying it once |
| Strings.LowerFixed | functions.js:30 | a string with no upper-case ASCII letter is its own lower-case form |
| Strings.LowerCharInverse | functions.js:12 | a character lower-cases to a given lower-case letter exactly when it is that letter or its upper-case form |
| Strings.Split | functions.js:9 | `split(":")` yields at least one piece |
| Strings.SplitPieces | functions.js:9 | `split(":")` yields one more piece than there are colons, and no piece holds a colon |
| Strings.JoinSplit | functions.js:9 | joining the pieces with `:` gives back the token |
| Strings.SplitJoin | functions.js:9 | splitting colon-free pieces joined by `:` gives back the pieces |
| Strings.SplitConcat | functions.js:9 | splitting `a:b` is splitting `a` followed by splitting `b` |
| Strings.SplitNoColon | functions.js:9 | a colon-free token is a single piece |
| Strings.Join | functions.js:19 | no contract of its own: `join(sep)`, with `""` for no parts and the part itself for one; `Strings.JoinAppend`, `Strings.JoinSplit` and `Strings.SplitJoin` state its meaning |
| Strings.JoinAppend | functions.js:19 | joining two non-empty lists puts one separator between their joins |
| Strings.JoinNotOccurs | functions.js:52 | a word absent from every part and from the separator, and not spanning a boundary, is absent from the join |
| Strings.JoinOccurs | functions.js:52 | a word in some part occurs in the join |
| Descriptor.Parse | functions.js:9 | no contract of its own: the destructuring of `f.split(":")` into name, type (default `String`), required (default `false`) and optional default; the `Descriptor.Parse…` lemmas below state what it gives |
| Descriptor.IsRequired | functions.js:12 | no contract of its own: `required.toLowerCase() === "true"`; `Descriptor.RequiredSpellings` states which flags it accepts |
| Descriptor.ParseName | functions.js:9 | the name is the token's text up to its first colon, verbatim |
| Descriptor.ParseColonFree | functions.js:9 | no parsed piece holds a colon |
| Descriptor.ParseFormat | functions.js:9 | parsing the written-out descriptor of colon-free pieces gives it back |
| Descriptor.ParseTruncates | functions.js:9 | pieces after the default are ignored, so a default holding `:` is cut at it |
| Descriptor.ParseBareName | functions.js:9 | a bare name gets type `String`, required `false` and no default |
| Descriptor.ParseNameAndType | functions.js:9 | a missing required piece defaults to `false` |
| Descriptor.ParseDefaultPresent | functions.js:13 | a default exists exactly when the token has at least three colons |
| Descriptor.ParseEmptyType | functions.js:9 | an empty piece is kept as the empty type, not replaced by the default |
| Descriptor.ParseFourPieces | functions.js:9 | four colon-free pieces are read as name, type, required and default |
| Descriptor.ParseAge | functions.js:9 | `age:number:false:18` parses to its four pieces |
| Descriptor.ParseColor | functions.js:9 | `color:string:false:red` parses to its four pieces |
| Descriptor.ParseCount | functions.js:9 | `count:number:true:0` parses to its four pieces |
| Descriptor.RequiredSpellings | functions.js:12 | the required flag holds exactly for the four letters of `true` in any mix of cases |
| Renderers.TypeName | functions.js:10 | no contract of its own: the capitalised type tag; `Renderers.TypeNameIsString` states when it is `String` |
| Renderers.DefaultLiteral | functions.js:14 | no contract of its own: the default quoted exactly when the type name is `String`; `Renderers.QuotedIffStringType` and `Renderers.UnquoteDefault` state it |
| Renderers.EntryLines | functions.js:11-17 | no contract of its own: an entry from its name, type name, required flag and default literal; `Renderers.EntryLinesTemplate` and `Renderers.DecodeLines` state its text and its meaning |
| Renderers.EntryText | functions.js:9-18 | no contract of its own: the entry of a parsed descriptor; `Renderers.DecodeSchema` states what it reads back as |
| Renderers.SchemaEntry | functions.js:8-18 | no contract of its own: the `map` callback of `generateSchemaFields`; `Renderers.DecodeSchema`, `Renderers.ColorText` and `Renderers.CountText` state its result |
| Renderers.SchemaFields | functions.js:5-20 | no contract of its own: `generateSchemaFields`, the placeholder for an empty list with the flag set, otherwise the entries joined by `",\n"`; `Renderers.SchemaFieldsCompose` and `Renderers.FieldsAgree` state its shape |
| Renderers.JoiBase | functions.js:30-45 | no contract of its own: the `switch (type.toLowerCase())`; `Renderers.ValidatorNamesTag`, `Renderers.ValidatorIgnoresCase` and `Renderers.ValidatorShape` state it |
| Renderers.CreateRule | functions.js:26-51 | no contract of its own: a create rule, `.required()` appended when the flag holds; `Renderers.DecodeCreateRule` and `Renderers.CreateRuleRequired` state its meaning |
| Renderers.UpdateRule | functions.js:59-80 | no contract of its own: an update rule, never with `.required()`; `Renderers.DecodeUpdateRule` and `Renderers.UpdateRuleNotRequired` state its meaning |
| Renderers.CreateFields | functions.js:23-53 | no contract of its own: `generateValidationFieldsForCreate`; `Renderers.CreateFieldsCompose` and `Renderers.CreateRequiredIff` state its shape and when it demands a field |
| Renderers.UpdateFields | functions.js:56-82 | no contract of its own: `generateValidationFieldsForUpdate`; `Renderers.UpdateFieldsCompose` and `Renderers.UpdateNeverRequired` state its shape and that it demands nothing |
| Renderers.ValidatorNamesTag | functions.js:30-45 | the validator is `joi.<tag>()` for the lower-cased tags `string`, `number`, `boolean` and `date`, and `joi.any()` for every other tag |
| Renderers.ValidatorIgnoresCase | functions.js:30 | tags equal up to case get the same validator |
| Renderers.ValidatorShape | functions.js:30-45 | the validator is one of five texts, none ending in `.required()` |
| Renderers.TypeNameIsString | functions.js:10 | the schema type name is `String` exactly for the tags `String` and `string` |
| Renderers.QuotedIffStringType | functions.js:14 | the default is quoted exactly when the type name is `String` |
| Renderers.UnquoteDefault | functions.js:14 | stripping the quotes from a rendered default gives the default back |
| Renderers.CapitalizeColonFree | functions.js:10 | capitalising adds no colon |
| Renderers.CreateExtendsUpdate | functions.js:23-82 | a create rule is the update rule followed by `.required()` exactly when the flag holds |
| Renderers.DecodeRuleText | functions.js:51 | a rule line reads back as its name, its validator and whether it ends in `.required()` |
| Renderers.DecodeCreateRule | functions.js:26-52 | a create rule reads back as the token's name and validator, required exactly when the flag holds |
| Renderers.DecodeUpdateRule | functions.js:59-81 | an update rule reads back as the token's name and validator, never required |
| Renderers.DecodeLines | functions.js:11-17 | an entry reads back as its name, type name, required flag and unquoted default, for all four shapes |
| Renderers.DecodeSchema | functions.js:8-18 | a schema entry reads back as the token's name, capitalised type, required flag and default |
| Renderers.FieldsAgree | create-model.js:54-69 | one list feeds the schema, create and update blocks, so their i-th entries all read back as the i-th descriptor's name |
| Renderers.SchemaEntriesAppend | functions.js:8 | entries of a concatenated list are the concatenated entries, in input order |
| Renderers.CreateRulesAppend | functions.js:26 | create rules of a concatenated list are the concatenated rules |
| Renderers.UpdateRulesAppend | functions.js:59 | update rules of a concatenated list are the concatenated rules |
| Renderers.SchemaFieldsCompose | functions.js:6-19 | an empty list gives the placeholder with the flag and `""` without; one field gives its entry; two non-empty lists give their blocks joined by `",\n"` |
| Renderers.CreateFieldsCompose | functions.js:24-52 | the same for create blocks, joined by `",\n    "` |
| Renderers.UpdateFieldsCompose | functions.js:57-81 | the same for update blocks |
| Renderers.RuleTextsLackModifier | functions.js:51 | the fixed rule text and the placeholder do not contain `.required()` |
| Renderers.UpdateRuleNotRequired | functions.js:80 | an update rule does not contain `.required()` unless the field name does |
| Renderers.CreateRuleRequired | functions.js:47-51 | for a field name without `.required()`, a create rule contains it exactly when the flag holds |
| Renderers.UpdateNeverRequired | functions.js:56-82 | when no field name spells `.required()`, an update block never contains it, whatever the flags and types say |
| Renderers.CreateRequiredIff | functions.js:23-53 | when no field name spells `.required()`, a create block contains it exactly when some field's flag holds |
| Renderers.ColorMeaning | functions.js:10-15 | `color:string:false:red` means a `String` with default `red` and a non-required `joi.string()` |
| Renderers.CountMeaning | functions.js:10-15 | `count:number:true:0` means a required `Number` with default `0`, validated by `joi.number()`, required only on create |
| Renderers.ColorField | functions.js:8-18 | the rendered `color` entry reads back as a `String` with the quoted default `'red'` |
| Renderers.CountField | functions.js:8-18 | the rendered `count` entry reads back as a required `Number` with the raw default `0`; its create rule is required and its update rule is not |
| Renderers.EntryLinesTemplate | functions.js:11-17 | an entry is `    <name>: {\n      type: <Type>`, then `,\n      required: true` when required, then `,\n      default: <literal>` when a default exists, then `\n    }` |
| Renderers.ColorText | functions.js:9-18 | `color:string:false:red` renders as the entry with type `String` and default `'red'` and no `required` line; its create and update rules are both `  color: joi.string()` |
| Renderers.CountText | functions.js:9-18 | `count:number:true:0` renders as the entry with type `Number`, a `required: true` line and the unquoted default `0` |
| Renderers.CountRuleText | functions.js:26-51 | `count:number:true:0` has the create rule `  count: joi.number().required()` and the update rule `  count: joi.number()` |
| Layout.Named | index.js:8 | no contract of its own: the negation of `!modelName`, a name given and not empty |
| Layout.NameText | create-user.js:259 | no contract of its own: `${modelName}` in a template literal, `undefined` for a missing name |
| Layout.CapitalizeArg | functions.js:85-88 | no contract of its own: `capitalize(modelName)`, `""` for a missing or empty name; `Layout.CapitalizeArgEmpty` states it |
| Layout.ModelPath | index.js:258 | no contract of its own: `models/<name>.model.js`; `Layout.PathsDistinct` and `Layout.OutsideDirs` state its relation to the other paths |
| Layout.ValidationPath | create-model.js:179 | no contract of its own: `<dir>/<name>.validation.js`, with `validation` in index.js and `validations` elsewhere |
| Layout.ControllerPath | index.js:260 | no contract of its own: `controllers/<name>.controller.js` |
| Layout.RouterPath | index.js:261 | no contract of its own: `routes/<name>.route.js` |
| Layout.CapitalizeArgEmpty | create-user.js:57-79 | the capitalised name is empty exactly when no usable name was given, and otherwise has the name's length |
| Layout.PathsDistinct | index.js:258-261 | the four per-model paths and the two middleware paths are pairwise distinct for every name |
| Layout.PathsHaveSlash | create-user.js:259-263 | every output path contains a directory separator |
| Layout.OutsideDirs | create-user.js:9-42 | no output path is one of the directories a run creates |
| Templates.ModelTemplate | create-model.js:51-58 | no contract of its own: the `templateModel` of index.js and create-model.js around the schema block; `Templates.ModelSlot` states that the text determines the block |
| Templates.ValidationTemplate | create-model.js:61-77 | no contract of its own: the `templateValidation` of index.js and create-model.js, create block then update block |
| Templates.UserModelTemplate | create-user.js:44-80 | no contract of its own: the user `templateModel` with its fixed entries and password hooks; `Templates.UserModelText` and `Templates.UserModelSlot` state it |
| Templates.UserValidationTemplate | create-user.js:82-108 | no contract of its own: the user `templateValidation` with create, update and login schemas; `Templates.UserValidationText` states it |
| Templates.MulterModelTemplate | create-multer.js:43-58 | no contract of its own: the upload `templateModel` with its fixed entries; `Templates.MulterModelText` and `Templates.MulterModelSlot` state it |
| Templates.MulterValidationTemplate | create-multer.js:60-72 | no contract of its own: the upload `templateValidation` with a create schema only; `Templates.MulterValidationText` and `Templates.MulterValidationSlot` state it |
| Templates.FileText | create-model.js:51-77 | a model or validation file has a text; the fixed-text files are not spelt out |
| Templates.ModelSlot | create-model.js:51-58 | a model file's text determines its schema block |
| Templates.UserModelSlot | create-user.js:44-80 | a user model's text determines its rendered block |
| Templates.MulterModelSlot | create-multer.js:43-58 | an upload model's text determines its rendered block |
| Templates.MulterValidationSlot | create-multer.js:60-72 | an upload validation's text determines its create block |
| Templates.FixedEntryText | create-user.js:49-52 | a fixed entry is the entry the renderer lays out for a required `String` |
| Templates.FixedEntryRendered | create-user.js:49-56 | the fixed `email`/`password` entries are what the schema renderer prints for `name:String:true` |
| Templates.RequiredStringRuleParse | create-multer.js:63-64 | `name:string:true` parses to that name, required, validated by `joi.string()` |
| Templates.FixedRuleRendered | create-multer.js:63-64 | the fixed `joi.string().required()` lines are the create rules of `name:string:true`, and the bare ones are its update rules |
| Templates.DecodeRuleLine | create-user.js:86-93 | a fixed rule line reads back as its name, validator and required flag |
| Templates.EmailRules | create-user.js:86-92 | the email line is required on create and not required on update |
| Templates.FixedPairSchema | create-user.js:49-57 | two fixed entries before the block are the block of their tokens followed by the fields, plus a separator when there are no fields |
| Templates.UserSchemaRendered | create-user.js:48-57 | the user schema is the block of `email` and `password` as required `String` tokens followed by the given fields |
| Templates.MulterSchemaRendered | create-multer.js:45-54 | the upload schema is the block of `name` and `alt` as required `String` tokens followed by the given fields |
| Templates.PairThenRules | functions.js:52 | two rules before a joined list are the join of all |
| Templates.FixedPairCreate | create-multer.js:62-65 | two fixed create lines before the block are the create block of their tokens followed by the fields |
| Templates.MulterCreateRendered | create-multer.js:62-65 | the upload create schema is the create block of `name` and `alt` followed by the given fields |
| Templates.FixedPairUpdate | create-user.js:91-94 | two fixed update lines before the block are the first line followed by the update block of the second token and the fields |
| Templates.UserUpdateRendered | create-user.js:91-94 | the user update schema is the email rule, then the update block of `password` and the given fields |
| Templates.UserModelText | create-user.js:44-80 | the user model file is its template around the schema block of `email`, `password` and the given fields |
| Templates.MulterModelText | create-multer.js:43-58 | the upload model file is its template around the schema block of `name`, `alt` and the given fields |
| Templates.MulterValidationText | create-multer.js:60-72 | the upload validation file is its template around the create block of `name`, `alt` and the given fields |
| Templates.UserValidationText | create-user.js:82-108 | the user validation file's update schema is the email rule, then the update block of `password` and the given fields |
| FileSystem.Disk.Exists | functions.js:91 | `existsSync` is true exactly for existing files and directories |
| FileSystem.Disk.MakeDirIfMissing | index.js:17-21 | the directory is added unless an existing file or directory already has its name; files are unchanged |
| FileSystem.Disk.Write | index.js:282 | the path now holds the content; nothing else changes |
| FileSystem.Check | functions.js:90-95 | the run exits exactly when the path already exists; the disk is unchanged |
| FileSystem.FirstTaken | create-model.js:184-187 | nothing is found exactly when no path exists; otherwise the result is an existing path and every earlier path is free |
| FileSystem.Verdict | create-model.js:183-187 | no contract of its own: a collision on the path `FileSystem.FirstTaken` finds, else the run goes on; `FileSystem.VerdictOfFour` and `FileSystem.VerdictOfFive` tie it to the guards run in sequence |
| FileSystem.FirstTakenCons | create-model.js:184 | the first guard either stops the run or defers to the rest |
| FileSystem.VerdictOfFour | index.js:264-279 | four guards in a row stop at the first existing path, else the run goes on |
| FileSystem.VerdictOfFive | create-user.js:265-272 | five guards in a row stop at the first existing path, else the run goes on |
| FileSystem.FirstTakenIgnores | functions.js:90-95 | paths that are never checked do not change which path stops a run |
| FileSystem.MissingDirsGrow | index.js:15-48 | the directories made one after another are those of the whole set that were missing at the start |
| FileSystem.Written | index.js:282-288 | no contract of its own: the files after the planned writes, in order; `FileSystem.FreshWrites` and `FileSystem.WrittenFour`/`FileSystem.WrittenFive` state what it holds |
| FileSystem.PathsOfSnoc | index.js:282-288 | the paths of a plan are the paths before the last write plus the last one |
| FileSystem.FreshPlanInit | index.js:282-288 | a prefix of a fresh plan is fresh, and its last path is new to the prefix |
| FileSystem.WrittenKeys | index.js:282-288 | writing a fresh plan adds exactly its paths |
| FileSystem.WrittenCount | index.js:282-288 | writing a fresh plan adds one file per write |
| FileSystem.WrittenKeeps | index.js:282-288 | files that existed before a fresh plan keep their content |
| FileSystem.WrittenHolds | index.js:282-288 | every planned path ends up with its planned content |
| FileSystem.FreshWrites | create-user.js:274-284 | a fresh plan adds exactly its paths and one file per write, keeps old files and puts every planned content in place |
| FileSystem.WrittenFour | create-model.js:190-196 | four writes in order are the plan of those four writes |
| FileSystem.WrittenFive | create-multer.js:225-234 | five writes in order are the plan of those five writes |
| IndexScript.Plan | index.js:258-288 | no contract of its own: the files the script writes, in writing order, with their contents; `IndexScript.Run` ties the new disk to it |
| IndexScript.Checks | index.js:264-279 | no contract of its own: the paths the script guards, in checking order; `IndexScript.Run` ties the outcome to it |
| IndexScript.Run | index.js:8-289 | no name means usage with nothing changed. Otherwise the missing directories among `models`, `validation`, `controllers`, `routes` are created; the outcome is the first existing path among model, validation, controller, router; a collision writes nothing; success writes the four planned files in order |
| IndexScript.CreatedIsFresh | index.js:258-288 | when no guarded path exists, the four planned paths are new and pairwise distinct |
| CreateModel.Plan | create-model.js:178-196 | no contract of its own: the files the script writes, in writing order, with their contents; `CreateModel.Run` ties the new disk to it |
| CreateModel.Checks | create-model.js:183-186 | no contract of its own: the paths the script guards, in checking order; `CreateModel.Run` ties the outcome to it |
| CreateModel.Run | create-model.js:8-197 | as `IndexScript.Run`, with `validations` and the guard order model, controller, route, validation |
| CreateModel.CreatedIsFresh | create-model.js:178-196 | when no guarded path exists, the four planned paths are new and pairwise distinct |
| CreateUser.Plan | create-user.js:259-284 | no contract of its own: the files the script writes, in writing order, with their contents; `CreateUser.Run` ties the new disk to it |
| CreateUser.Checks | create-user.js:265-272 | no contract of its own: the paths the script guards, in checking order; `CreateUser.Run` ties the outcome to it |
| CreateUser.Run | create-user.js:9-284 | the five directories are created when missing; the outcome is the first existing path among model, controller, route, validation and `middlewares/auth.js`; a collision writes nothing; success writes the five planned files, named `undefined` when no name was given |
| CreateUser.CreatedIsFresh | create-user.js:259-284 | when no guarded path exists, the five planned paths are new and pairwise distinct |
| CreateMulter.Plan | create-multer.js:210-234 | no contract of its own: the files the script writes, in writing order, with their contents; `CreateMulter.Run` ties the new disk to it |
| CreateMulter.Checks | create-multer.js:216-223 | no contract of its own: the paths the script guards, in checking order; `CreateMulter.Run` ties the outcome to it |
| CreateMulter.Run | create-multer.js:8-235 | as `CreateUser.Run`, with `middlewares/multer.js` and a create-only validation |
| CreateMulter.CreatedIsFresh | create-multer.js:210-234 | when no guarded path exists, the five planned paths are new and pairwise distinct |

## Left out

- Console output is left out: the usage text, the progress messages and the collision messages. That includes the wrong file name in create-multer.js's collision message.
- `process.argv` is left out. The runs take the model name as an `Option<string>` and the descriptors as a sequence.
- `process.cwd()` and `path.join` are left out. Paths are relative strings joined with `/`, and names holding `/` or `..` are not normalised.
- File-system failures are left out. A regular file holding a directory's name makes `existsSync` true, so the guard skips `mkdirSync` (index.js:18-19), as `FileSystem.Disk.MakeDirIfMissing` does. The later `writeFileSync` into that directory then throws ENOTDIR after the run's earlier writes have landed, leaving a partial write. The model instead records the file under that path. Permission errors and other I/O failures are left out as well.
- Atomicity is not modelled. An interrupted run leaves whatever it had written; the scripts do no rollback.
- The bodies of the controller, router, `auth.js` and `multer.js` templates are fixed text around the names. They are represented by their contents' constructors and `Templates.FileText` does not spell them out. That leaves out their defects:
  - `findByIdAndDelete` in the update handler;
  - a delete handler that is routed but not imported;
  - the hard-coded `userSchema` in the user hooks, which the model keeps as fixed text.
- Unicode case mapping is left out: `toUpperCase` and `toLowerCase` are modelled on ASCII letters only.
- `index.js`'s copies of the renderers and of `capitalize` (index.js:51-128, 293-296) are not modelled separately. They are the `functions.js` ones with the placeholder flag set, and `IndexScript` uses those.
- Renderers.UpdateNeverRequired: needs `NoModifierIn`, meaning no field name spells `.required()` itself. The name is the only part of a token a rule copies, since the type goes through `JoiBase`; a name such as `a.required()` would put the text into the block.
- Renderers.CreateRequiredIff: needs `NoModifierIn` as well, for the same reason.
- Templates.FileText: gives no text for controllers, routers and middlewares, whose bodies are fixed text.
