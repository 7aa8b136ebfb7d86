/**
 * index.js, the original all-in-one generator. It carries its own copies of
 * the three renderers and of `capitalize`; they are the functions.js ones
 * with the placeholder flag set, so the model calls those. It differs from
 * create-model.js in the validation directory (`validation`, singular) and
 * in guarding the validation file second rather than last.
 */
module IndexScript {
  import opened Optional
  import opened Strings
  import opened FileSystem
  import opened Layout

  const Dirs: set<string> := ModelDirs(ValidationDir)

  /** The files written, in writing order. */
  function Plan(n: string, fields: seq<string>): seq<Planned>
  {
    [Planned(ModelPath(n), ModelFile(Index, n, fields, Capitalize(n))),
     Planned(ValidationPath(ValidationDir, n), ValidationFile(Index, n, fields)),
     Planned(ControllerPath(n), ControllerFile(Index, n, Capitalize(n))),
     Planned(RouterPath(n), RouterFile(Index, n, Capitalize(n)))]
  }

  /** The guarded paths, in checking order: model, validation, controller, router. */
  function Checks(n: string): seq<string>
  {
    [ModelPath(n), ValidationPath(ValidationDir, n), ControllerPath(n), RouterPath(n)]
  }

  method Run(disk: Disk, modelName: Option<string>, fields: seq<string>) returns (out: Outcome)
    modifies disk
    ensures !Named(modelName) ==> out == Usage && disk.files == old(disk.files) && disk.dirs == old(disk.dirs)
    ensures Named(modelName) ==> disk.dirs == old(disk.dirs) + MissingDirs(Dirs, old(disk.Occupied()))
    ensures Named(modelName) ==> out == Verdict(Checks(modelName.value), old(disk.Occupied()))
    ensures out.Created? ==> disk.files == Written(old(disk.files), Plan(modelName.value, fields))
    ensures !out.Created? ==> disk.files == old(disk.files)
  {
    if modelName.None? || modelName.value == "" {
      return Usage;
    }
    var n := modelName.value;
    ghost var occupied := disk.Occupied();
    disk.MakeDirIfMissing(ModelsDir);
    MissingDirsGrow(occupied, {ModelsDir}, ValidationDir);
    disk.MakeDirIfMissing(ValidationDir);
    MissingDirsGrow(occupied, {ModelsDir} + {ValidationDir}, ControllersDir);
    disk.MakeDirIfMissing(ControllersDir);
    MissingDirsGrow(occupied, {ModelsDir} + {ValidationDir} + {ControllersDir}, RoutesDir);
    disk.MakeDirIfMissing(RoutesDir);
    assert disk.dirs == old(disk.dirs) + MissingDirs(Dirs, occupied);
    assert disk.Occupied() == occupied + Dirs;

    var templateModel := ModelFile(Index, n, fields, Capitalize(n));
    var templateValidation := ValidationFile(Index, n, fields);
    var templateController := ControllerFile(Index, n, Capitalize(n));
    var templateRouter := RouterFile(Index, n, Capitalize(n));

    var outputModelPath := ModelPath(n);
    var outputValidationPath := ValidationPath(ValidationDir, n);
    var outputControllerPath := ControllerPath(n);
    var outputRouterPath := RouterPath(n);

    OutsideDirs(n, ValidationDir);
    VerdictOfFour(outputModelPath, outputValidationPath, outputControllerPath, outputRouterPath, occupied);
    var taken := disk.Exists(outputModelPath);
    if taken {
      return Collision(outputModelPath);
    }
    taken := disk.Exists(outputValidationPath);
    if taken {
      return Collision(outputValidationPath);
    }
    taken := disk.Exists(outputControllerPath);
    if taken {
      return Collision(outputControllerPath);
    }
    taken := disk.Exists(outputRouterPath);
    if taken {
      return Collision(outputRouterPath);
    }

    disk.Write(outputModelPath, templateModel);
    disk.Write(outputValidationPath, templateValidation);
    disk.Write(outputControllerPath, templateController);
    disk.Write(outputRouterPath, templateRouter);
    WrittenFour(old(disk.files), Planned(outputModelPath, templateModel), Planned(outputValidationPath, templateValidation),
                Planned(outputControllerPath, templateController), Planned(outputRouterPath, templateRouter));
    return Created;
  }

  /** A run that passes its guards writes a fresh plan: new paths, pairwise distinct. */
  lemma CreatedIsFresh(n: string, fields: seq<string>, files: map<string, Content>, dirs: set<string>)
    requires Verdict(Checks(n), files.Keys + dirs) == Created
    ensures FreshPlan(Plan(n, fields), files.Keys)
  {
    var n := n;
    PathsDistinct(n, ValidationDir);
    var cs, plan := Checks(n), Plan(n, fields);
    assert forall i :: 0 <= i < |cs| ==> cs[i] !in files.Keys;
    assert plan[0].path == cs[0] && plan[1].path == cs[1] && plan[2].path == cs[2] && plan[3].path == cs[3];
  }
}
