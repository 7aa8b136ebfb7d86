/**
 * Where a run writes: the directories it creates (relative to the working
 * directory) and the file paths it derives from the model name, and how
 * the name itself is spelt in paths and templates.
 */
module Layout {
  import opened Optional
  import opened Strings

  const ModelsDir: string := "models"
  /** index.js writes validations into a singular directory. */
  const ValidationDir: string := "validation"
  const ValidationsDir: string := "validations"
  const ControllersDir: string := "controllers"
  const RoutesDir: string := "routes"
  const MiddlewaresDir: string := "middlewares"

  /** `!modelName` is false: a name was given and it is not empty. */
  predicate Named(m: Option<string>)
  {
    m.Some? && m.value != ""
  }

  /** `${modelName}` in a template literal: an absent name prints as `undefined`. */
  function NameText(m: Option<string>): string
  {
    if m.None? then "undefined" else m.value
  }

  /** `capitalize(modelName)`: `!str` covers both the absent and the empty name. */
  function CapitalizeArg(m: Option<string>): string
  {
    if m.None? || m.value == "" then "" else Capitalize(m.value)
  }

  /** The capitalised name is empty exactly when no usable name was given, and keeps its length otherwise. */
  lemma CapitalizeArgEmpty(m: Option<string>)
    ensures CapitalizeArg(m) == "" <==> !Named(m)
    ensures Named(m) ==> |CapitalizeArg(m)| == |m.value|
  {
  }

  function ModelPath(n: string): string
  {
    ModelsDir + "/" + n + ".model.js"
  }

  function ValidationPath(dir: string, n: string): string
  {
    dir + "/" + n + ".validation.js"
  }

  function ControllerPath(n: string): string
  {
    ControllersDir + "/" + n + ".controller.js"
  }

  function RouterPath(n: string): string
  {
    RoutesDir + "/" + n + ".route.js"
  }

  const AuthPath: string := MiddlewaresDir + "/" + "auth.js"
  const MulterPath: string := MiddlewaresDir + "/" + "multer.js"

  /** The directories every run creates when missing: the four per-model ones. */
  function ModelDirs(validationDir: string): set<string>
  {
    {ModelsDir} + {validationDir} + {ControllersDir} + {RoutesDir}
  }

  /**
   * Whatever the name, the paths a run writes are pairwise distinct: they
   * differ in their directory, which the name follows.
   */
  lemma PathsDistinct(n: string, dir: string)
    requires dir == ValidationDir || dir == ValidationsDir
    ensures ModelPath(n) != ValidationPath(dir, n) && ModelPath(n) != ControllerPath(n) && ModelPath(n) != RouterPath(n)
    ensures ValidationPath(dir, n) != ControllerPath(n) && ValidationPath(dir, n) != RouterPath(n)
    ensures ControllerPath(n) != RouterPath(n)
    ensures AuthPath !in {ModelPath(n), ValidationPath(dir, n), ControllerPath(n), RouterPath(n)}
    ensures MulterPath !in {ModelPath(n), ValidationPath(dir, n), ControllerPath(n), RouterPath(n)}
    ensures AuthPath != MulterPath
  {
    assert ModelPath(n)[0] == 'm' && ModelPath(n)[1] == 'o';
    assert ValidationPath(dir, n)[0] == 'v';
    assert ControllerPath(n)[0] == 'c';
    assert RouterPath(n)[0] == 'r';
    assert AuthPath[1] == 'i' && MulterPath[1] == 'i';
    assert AuthPath[12] == 'a' && MulterPath[12] == 'm';
  }

  /** Every written path has a `/` in it ... */
  lemma PathsHaveSlash(n: string, dir: string)
    ensures '/' in ModelPath(n) && '/' in ValidationPath(dir, n) && '/' in ControllerPath(n) && '/' in RouterPath(n)
    ensures '/' in AuthPath && '/' in MulterPath
  {
    assert ModelPath(n)[6] == '/';
    assert ValidationPath(dir, n)[|dir|] == '/';
    assert ControllerPath(n)[11] == '/';
    assert RouterPath(n)[6] == '/';
    assert AuthPath[11] == '/' && MulterPath[11] == '/';
  }

  /** ... and no directory a run creates has one, so no written path is a directory. */
  lemma DirsHaveNoSlash(dir: string)
    requires dir == ValidationDir || dir == ValidationsDir
    ensures forall d :: d in ModelDirs(dir) + {MiddlewaresDir} ==> '/' !in d
  {
  }

  /** So no written path is one of the directories a run creates. */
  lemma OutsideDirs(n: string, dir: string)
    requires dir == ValidationDir || dir == ValidationsDir
    ensures ModelPath(n) !in ModelDirs(dir) + {MiddlewaresDir}
    ensures ValidationPath(dir, n) !in ModelDirs(dir) + {MiddlewaresDir}
    ensures ControllerPath(n) !in ModelDirs(dir) + {MiddlewaresDir}
    ensures RouterPath(n) !in ModelDirs(dir) + {MiddlewaresDir}
    ensures AuthPath !in ModelDirs(dir) + {MiddlewaresDir}
    ensures MulterPath !in ModelDirs(dir) + {MiddlewaresDir}
  {
    PathsHaveSlash(n, dir);
    DirsHaveNoSlash(dir);
  }
}
