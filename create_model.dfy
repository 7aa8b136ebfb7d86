/**
 * create-model.js: check the name, create the four directories, guard
 * the four output paths, then write the four files.
 */
module CreateModel {
  import opened Optional
  import opened Strings
  import opened FileSystem
  import opened Layout

  const Dirs: set<string> := ModelDirs(ValidationsDir)

  /** The files written, in writing order. */
  function Plan(n: string, fields: seq<string>): seq<Planned>
  {
    [Planned(ModelPath(n), ModelFile(Plain, n, fields, Capitalize(n))),
     Planned(ValidationPath(ValidationsDir, n), ValidationFile(Plain, n, fields)),
     Planned(ControllerPath(n), ControllerFile(Plain, n, Capitalize(n))),
     Planned(RouterPath(n), RouterFile(Plain, n, Capitalize(n)))]
  }

  /** The guarded paths, in checking order: model, controller, route, validation. */
  function Checks(n: string): seq<string>
  {
    [ModelPath(n), ControllerPath(n), RouterPath(n), ValidationPath(ValidationsDir, n)]
  }

  method Run(disk: Disk, modelName: Option<string>, fields: seq<string>) returns (out: Outcome)
    modifies disk
    ensures !Named(modelName) ==> out == Usage && disk.files == old(disk.files) && disk.dirs == old(disk.dirs)
    ensures Named(modelName) ==> disk.dirs == old(disk.dirs) + MissingDirs(Dirs, old(disk.Occupied()))
    ensures Named(modelName) ==> out == Verdict(Checks(modelName.value), old(disk.Occupied()))
    ensures out.Created? ==> disk.files == Written(old(disk.files), Plan(modelName.value, fields))
    ensures !out.Created? ==> disk.files == old(disk.files)
  {
    if modelName.None? || modelName.value == "" {
      return Usage;
    }
    var n := modelName.value;
    ghost var occupied := disk.Occupied();
    disk.MakeDirIfMissing(ModelsDir);
    MissingDirsGrow(occupied, {ModelsDir}, ValidationsDir);
    disk.MakeDirIfMissing(ValidationsDir);
    MissingDirsGrow(occupied, {ModelsDir} + {ValidationsDir}, ControllersDir);
    disk.MakeDirIfMissing(ControllersDir);
    MissingDirsGrow(occupied, {ModelsDir} + {ValidationsDir} + {ControllersDir}, RoutesDir);
    disk.MakeDirIfMissing(RoutesDir);
    assert disk.dirs == old(disk.dirs) + MissingDirs(Dirs, occupied);
    assert disk.Occupied() == occupied + Dirs;

    var templateModel := ModelFile(Plain, n, fields, Capitalize(n));
    var templateValidation := ValidationFile(Plain, n, fields);
    var templateController := ControllerFile(Plain, n, Capitalize(n));
    var templateRouter := RouterFile(Plain, n, Capitalize(n));

    var outputModelPath := ModelPath(n);
    var outputValidationPath := ValidationPath(ValidationsDir, n);
    var outputControllerPath := ControllerPath(n);
    var outputRouterPath := RouterPath(n);

    OutsideDirs(n, ValidationsDir);
    VerdictOfFour(outputModelPath, outputControllerPath, outputRouterPath, outputValidationPath, occupied);
    var exits := Check(disk, outputModelPath);
    if exits {
      return Collision(outputModelPath);
    }
    exits := Check(disk, outputControllerPath);
    if exits {
      return Collision(outputControllerPath);
    }
    exits := Check(disk, outputRouterPath);
    if exits {
      return Collision(outputRouterPath);
    }
    exits := Check(disk, outputValidationPath);
    if exits {
      return Collision(outputValidationPath);
    }

    disk.Write(outputModelPath, templateModel);
    disk.Write(outputValidationPath, templateValidation);
    disk.Write(outputControllerPath, templateController);
    disk.Write(outputRouterPath, templateRouter);
    WrittenFour(old(disk.files), Planned(outputModelPath, templateModel), Planned(outputValidationPath, templateValidation),
                Planned(outputControllerPath, templateController), Planned(outputRouterPath, templateRouter));
    return Created;
  }

  /** A run that passes its guards writes a fresh plan: new paths, pairwise distinct. */
  lemma CreatedIsFresh(n: string, fields: seq<string>, files: map<string, Content>, dirs: set<string>)
    requires Verdict(Checks(n), files.Keys + dirs) == Created
    ensures FreshPlan(Plan(n, fields), files.Keys)
  {
    var n := n;
    PathsDistinct(n, ValidationsDir);
    var cs, plan := Checks(n), Plan(n, fields);
    assert forall i :: 0 <= i < |cs| ==> cs[i] !in files.Keys;
    assert plan[0].path == cs[0] && plan[1].path == cs[3] && plan[2].path == cs[1] && plan[3].path == cs[2];
  }
}
