/**
 * create-multer.js: a model with fixed `name` and `alt` fields, a
 * validation with a create block only, and the `multer.js` upload
 * middleware. Like create-user.js it never checks its arguments.
 */
module CreateMulter {
  import opened Optional
  import opened FileSystem
  import opened Layout

  const Dirs: set<string> := ModelDirs(ValidationsDir) + {MiddlewaresDir}

  /** The files written, in writing order. */
  function Plan(modelName: Option<string>, fields: seq<string>): seq<Planned>
  {
    var n := NameText(modelName);
    var cap := CapitalizeArg(modelName);
    [Planned(ModelPath(n), ModelFile(Upload, n, fields, cap)),
     Planned(ValidationPath(ValidationsDir, n), ValidationFile(Upload, n, fields)),
     Planned(ControllerPath(n), ControllerFile(Upload, n, cap)),
     Planned(RouterPath(n), RouterFile(Upload, n, cap)),
     Planned(MulterPath, MiddlewareFile(Upload))]
  }

  /** The guarded paths, in checking order: model, controller, route, validation, multer. */
  function Checks(n: string): seq<string>
  {
    [ModelPath(n), ControllerPath(n), RouterPath(n), ValidationPath(ValidationsDir, n), MulterPath]
  }

  method Run(disk: Disk, modelName: Option<string>, fields: seq<string>) returns (out: Outcome)
    modifies disk
    ensures disk.dirs == old(disk.dirs) + MissingDirs(Dirs, old(disk.Occupied()))
    ensures out == Verdict(Checks(NameText(modelName)), old(disk.Occupied()))
    ensures out.Created? ==> disk.files == Written(old(disk.files), Plan(modelName, fields))
    ensures !out.Created? ==> disk.files == old(disk.files)
  {
    ghost var occupied := disk.Occupied();
    disk.MakeDirIfMissing(ModelsDir);
    MissingDirsGrow(occupied, {ModelsDir}, ValidationsDir);
    disk.MakeDirIfMissing(ValidationsDir);
    MissingDirsGrow(occupied, {ModelsDir} + {ValidationsDir}, ControllersDir);
    disk.MakeDirIfMissing(ControllersDir);
    MissingDirsGrow(occupied, {ModelsDir} + {ValidationsDir} + {ControllersDir}, RoutesDir);
    disk.MakeDirIfMissing(RoutesDir);
    MissingDirsGrow(occupied, {ModelsDir} + {ValidationsDir} + {ControllersDir} + {RoutesDir}, MiddlewaresDir);
    disk.MakeDirIfMissing(MiddlewaresDir);
    assert disk.dirs == old(disk.dirs) + MissingDirs(Dirs, occupied);
    assert disk.Occupied() == occupied + Dirs;

    var n := NameText(modelName);
    var cap := CapitalizeArg(modelName);
    var templateModel := ModelFile(Upload, n, fields, cap);
    var templateValidation := ValidationFile(Upload, n, fields);
    var templateController := ControllerFile(Upload, n, cap);
    var templateRouter := RouterFile(Upload, n, cap);
    var templateMulter := MiddlewareFile(Upload);

    var outputModelPath := ModelPath(n);
    var outputValidationPath := ValidationPath(ValidationsDir, n);
    var outputControllerPath := ControllerPath(n);
    var outputRouterPath := RouterPath(n);
    var outputMulterPath := MulterPath;

    OutsideDirs(n, ValidationsDir);
    VerdictOfFive(outputModelPath, outputControllerPath, outputRouterPath, outputValidationPath, outputMulterPath, occupied);
    var exits := Check(disk, outputModelPath);
    if exits {
      return Collision(outputModelPath);
    }
    exits := Check(disk, outputControllerPath);
    if exits {
      return Collision(outputControllerPath);
    }
    exits := Check(disk, outputRouterPath);
    if exits {
      return Collision(outputRouterPath);
    }
    exits := Check(disk, outputValidationPath);
    if exits {
      return Collision(outputValidationPath);
    }
    var taken := disk.Exists(outputMulterPath);
    if taken {
      return Collision(outputMulterPath);
    }

    disk.Write(outputModelPath, templateModel);
    disk.Write(outputValidationPath, templateValidation);
    disk.Write(outputControllerPath, templateController);
    disk.Write(outputRouterPath, templateRouter);
    disk.Write(outputMulterPath, templateMulter);
    WrittenFive(old(disk.files), Planned(outputModelPath, templateModel), Planned(outputValidationPath, templateValidation),
                Planned(outputControllerPath, templateController), Planned(outputRouterPath, templateRouter),
                Planned(outputMulterPath, templateMulter));
    return Created;
  }

  /** A run that passes its guards writes a fresh plan: new paths, pairwise distinct. */
  lemma CreatedIsFresh(modelName: Option<string>, fields: seq<string>, files: map<string, Content>, dirs: set<string>)
    requires Verdict(Checks(NameText(modelName)), files.Keys + dirs) == Created
    ensures FreshPlan(Plan(modelName, fields), files.Keys)
  {
    var n := NameText(modelName);
    PathsDistinct(n, ValidationsDir);
    var cs, plan := Checks(n), Plan(modelName, fields);
    assert forall i :: 0 <= i < |cs| ==> cs[i] !in files.Keys;
    assert plan[0].path == cs[0] && plan[1].path == cs[3] && plan[2].path == cs[1] && plan[3].path == cs[2] && plan[4].path == cs[4];
  }
}
