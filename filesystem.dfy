/**
 * The part of the file system a generation run touches: the files it may
 * write and the directories it may create, both named by paths relative
 * to the working directory. `existsSync` sees files and directories alike.
 */
module FileSystem {
  import opened Optional

  /**
   * The four scripts, whose templates differ: index.js, create-model.js,
   * create-user.js and create-multer.js.
   */
  datatype Family = Index | Plain | User | Upload

  /**
   * What a generated file holds: the template of one family and what fills
   * it. Model and validation files are filled from the model name, the
   * field descriptors of the command line and the capitalised name (their
   * text is `Templates.FileText`); controllers and routers from the name
   * and the capitalised name; the middlewares have nothing to fill.
   */
  datatype Content =
    | ModelFile(family: Family, name: string, fields: seq<string>, capitalized: string)
    | ValidationFile(family: Family, name: string, fields: seq<string>)
    | ControllerFile(family: Family, name: string, capitalized: string)
    | RouterFile(family: Family, name: string, capitalized: string)
    | MiddlewareFile(family: Family)

  /** One planned `writeFileSync`. */
  datatype Planned = Planned(path: string, content: Content)

  class Disk {
    var files: map<string, Content>
    var dirs: set<string>

    constructor (files0: map<string, Content>, dirs0: set<string>)
      ensures files == files0 && dirs == dirs0
    {
      files := files0;
      dirs := dirs0;
    }

    /** The paths `existsSync` reports as existing. */
    function Occupied(): set<string>
      reads this
    {
      files.Keys + dirs
    }

    /** `fs.existsSync(p)` */
    method Exists(p: string) returns (b: bool)
      ensures b <==> p in Occupied()
    {
      b := p in files || p in dirs;
    }

    /** `if (!fs.existsSync(d)) fs.mkdirSync(d)`: a file already at `d` blocks the directory. */
    method MakeDirIfMissing(d: string)
      modifies this
      ensures files == old(files)
      ensures dirs == old(dirs) + MissingDirs({d}, old(Occupied()))
    {
      var b := Exists(d);
      if !b {
        dirs := dirs + {d};
      }
    }

    /** `fs.writeFileSync(p, c)` */
    method Write(p: string, c: Content)
      modifies this
      ensures files == old(files)[p := c]
      ensures dirs == old(dirs)
    {
      files := files[p := c];
    }
  }

  /** `check(outputPath, modelName, str)` of functions.js: true when the run exits with status 1. */
  method Check(disk: Disk, p: string) returns (exits: bool)
    ensures exits <==> p in disk.Occupied()
  {
    exits := disk.Exists(p);
  }

  /** How a run ends: the usage message, an `exit(1)` on an existing path, or every file written. */
  datatype Outcome = Usage | Collision(path: string) | Created

  /** The first path, in checking order, that already exists. */
  function FirstTaken(paths: seq<string>, occupied: set<string>): (r: Option<string>)
    ensures r == None <==> forall i :: 0 <= i < |paths| ==> paths[i] !in occupied
    ensures r.Some? ==> exists i :: 0 <= i < |paths| && paths[i] == r.value && r.value in occupied
                                    && forall j :: 0 <= j < i ==> paths[j] !in occupied
  {
    if |paths| == 0 then None
    else if paths[0] in occupied then Some(paths[0])
    else
      var r := FirstTaken(paths[1..], occupied);
      assert r.Some? ==> exists i :: 0 < i < |paths| && paths[i] == r.value && forall j :: 0 <= j < i ==> paths[j] !in occupied by {
        if r.Some? {
          var k :| 0 <= k < |paths| - 1 && paths[1..][k] == r.value && forall j :: 0 <= j < k ==> paths[1..][j] !in occupied;
          assert forall j :: 0 <= j < k + 1 ==> paths[j] !in occupied by {
            forall j | 0 <= j < k + 1 ensures paths[j] !in occupied {
              if j > 0 { assert paths[j] == paths[1..][j - 1]; }
            }
          }
        }
      }
      r
  }

  /** The outcome of a run's guards: the first existing path aborts it. */
  function Verdict(paths: seq<string>, occupied: set<string>): Outcome
  {
    match FirstTaken(paths, occupied)
    case None => Created
    case Some(p) => Collision(p)
  }

  /** The first guard decides, or leaves the verdict to the rest. */
  lemma FirstTakenCons(p: string, rest: seq<string>, occupied: set<string>)
    ensures FirstTaken([p] + rest, occupied) == if p in occupied then Some(p) else FirstTaken(rest, occupied)
  {
    assert ([p] + rest)[1..] == rest;
  }

  /** The verdict of four guards, taken one at a time. */
  lemma VerdictOfFour(a: string, b: string, c: string, d: string, occupied: set<string>)
    ensures Verdict([a, b, c, d], occupied) ==
      if a in occupied then Collision(a)
      else if b in occupied then Collision(b)
      else if c in occupied then Collision(c)
      else if d in occupied then Collision(d)
      else Created
  {
    FirstTakenCons(d, [], occupied);
    assert [d] + [] == [d];
    FirstTakenCons(c, [d], occupied);
    assert [c] + [d] == [c, d];
    FirstTakenCons(b, [c, d], occupied);
    assert [b] + [c, d] == [b, c, d];
    FirstTakenCons(a, [b, c, d], occupied);
    assert [a] + [b, c, d] == [a, b, c, d];
  }

  /** The verdict of five guards, taken one at a time. */
  lemma VerdictOfFive(a: string, b: string, c: string, d: string, e: string, occupied: set<string>)
    ensures Verdict([a, b, c, d, e], occupied) ==
      if a in occupied then Collision(a)
      else if b in occupied then Collision(b)
      else if c in occupied then Collision(c)
      else if d in occupied then Collision(d)
      else if e in occupied then Collision(e)
      else Created
  {
    var s := [a, b, c, d, e];
    assert s[1..] == [b, c, d, e];
    VerdictOfFour(b, c, d, e, occupied);
  }

  /** Paths a run never checks do not change its verdict. */
  lemma {:induction false} FirstTakenIgnores(paths: seq<string>, occupied: set<string>, extra: set<string>)
    requires forall i :: 0 <= i < |paths| ==> paths[i] !in extra
    ensures FirstTaken(paths, occupied + extra) == FirstTaken(paths, occupied)
  {
    if |paths| > 0 {
      FirstTakenIgnores(paths[1..], occupied, extra);
    }
  }

  /** The directories `MakeDirIfMissing` creates for `wanted`: those not yet taken by a file or directory. */
  function MissingDirs(wanted: set<string>, occupied: set<string>): set<string>
  {
    wanted - occupied
  }

  /** Creating one more directory after the ones in `wanted`: the missing ones accumulate. */
  lemma MissingDirsGrow(occupied: set<string>, wanted: set<string>, d: string)
    ensures MissingDirs(wanted, occupied) + MissingDirs({d}, occupied + MissingDirs(wanted, occupied))
         == MissingDirs(wanted + {d}, occupied)
  {
  }

  function PathsOf(plan: seq<Planned>): set<string>
  {
    set i | 0 <= i < |plan| :: plan[i].path
  }

  /** The files after the planned writes, in order; a later write to a path wins. */
  function Written(files: map<string, Content>, plan: seq<Planned>): map<string, Content>
    decreases |plan|
  {
    if |plan| == 0 then files
    else Written(files, plan[..|plan| - 1])[plan[|plan| - 1].path := plan[|plan| - 1].content]
  }

  /** Pairwise distinct paths, none of them already a file. */
  predicate FreshPlan(plan: seq<Planned>, taken: set<string>)
  {
    (forall i :: 0 <= i < |plan| ==> plan[i].path !in taken)
    && (forall i, j :: 0 <= i < j < |plan| ==> plan[i].path != plan[j].path)
  }

  lemma PathsOfSnoc(plan: seq<Planned>)
    requires |plan| > 0
    ensures PathsOf(plan) == PathsOf(plan[..|plan| - 1]) + {plan[|plan| - 1].path}
  {
    var init := plan[..|plan| - 1];
    forall p | p in PathsOf(plan) ensures p in PathsOf(init) + {plan[|plan| - 1].path} {
      var i :| 0 <= i < |plan| && plan[i].path == p;
      if i < |plan| - 1 { assert init[i].path == p; }
    }
    forall p | p in PathsOf(init) ensures p in PathsOf(plan) {
      var i :| 0 <= i < |init| && init[i].path == p;
      assert plan[i].path == p;
    }
  }

  lemma FreshPlanInit(plan: seq<Planned>, taken: set<string>)
    requires |plan| > 0 && FreshPlan(plan, taken)
    ensures FreshPlan(plan[..|plan| - 1], taken)
    ensures plan[|plan| - 1].path !in PathsOf(plan[..|plan| - 1])
  {
    var init := plan[..|plan| - 1];
    assert forall i :: 0 <= i < |init| ==> init[i] == plan[i];
  }

  /** Writing a fresh plan adds exactly its paths. */
  lemma {:induction false} WrittenKeys(files: map<string, Content>, plan: seq<Planned>)
    requires FreshPlan(plan, files.Keys)
    ensures Written(files, plan).Keys == files.Keys + PathsOf(plan)
  {
    if |plan| > 0 {
      FreshPlanInit(plan, files.Keys);
      WrittenKeys(files, plan[..|plan| - 1]);
      PathsOfSnoc(plan);
    }
  }

  /** Each write of a fresh plan creates one new file. */
  lemma {:induction false} WrittenCount(files: map<string, Content>, plan: seq<Planned>)
    requires FreshPlan(plan, files.Keys)
    ensures |Written(files, plan)| == |files| + |plan|
  {
    if |plan| > 0 {
      var init := plan[..|plan| - 1];
      FreshPlanInit(plan, files.Keys);
      WrittenCount(files, init);
      WrittenKeys(files, init);
      assert plan[|plan| - 1].path !in Written(files, init);
    }
  }

  /** Files that existed before a fresh plan keep their content. */
  lemma {:induction false} WrittenKeeps(files: map<string, Content>, plan: seq<Planned>, p: string)
    requires FreshPlan(plan, files.Keys) && p in files
    ensures p in Written(files, plan) && Written(files, plan)[p] == files[p]
  {
    if |plan| > 0 {
      FreshPlanInit(plan, files.Keys);
      WrittenKeeps(files, plan[..|plan| - 1], p);
    }
  }

  /** Every planned path ends up holding its planned content. */
  lemma {:induction false} WrittenHolds(files: map<string, Content>, plan: seq<Planned>, i: nat)
    requires FreshPlan(plan, files.Keys) && i < |plan|
    ensures plan[i].path in Written(files, plan) && Written(files, plan)[plan[i].path] == plan[i].content
  {
    if i < |plan| - 1 {
      var init := plan[..|plan| - 1];
      FreshPlanInit(plan, files.Keys);
      WrittenHolds(files, init, i);
      assert init[i] == plan[i];
    }
  }

  /** What writing a fresh plan does to the files, all at once. */
  lemma FreshWrites(files: map<string, Content>, plan: seq<Planned>)
    requires FreshPlan(plan, files.Keys)
    ensures Written(files, plan).Keys == files.Keys + PathsOf(plan)
    ensures |Written(files, plan)| == |files| + |plan|
    ensures forall p :: p in files ==> p in Written(files, plan) && Written(files, plan)[p] == files[p]
    ensures forall i :: 0 <= i < |plan| ==> plan[i].path in Written(files, plan) && Written(files, plan)[plan[i].path] == plan[i].content
  {
    WrittenKeys(files, plan);
    WrittenCount(files, plan);
    forall p | p in files
      ensures p in Written(files, plan) && Written(files, plan)[p] == files[p]
    {
      WrittenKeeps(files, plan, p);
    }
    forall i | 0 <= i < |plan|
      ensures plan[i].path in Written(files, plan) && Written(files, plan)[plan[i].path] == plan[i].content
    {
      WrittenHolds(files, plan, i);
    }
  }

  /** Four planned writes, one after the other. */
  lemma WrittenFour(files: map<string, Content>, a: Planned, b: Planned, c: Planned, d: Planned)
    ensures Written(files, [a, b, c, d])
         == files[a.path := a.content][b.path := b.content][c.path := c.content][d.path := d.content]
  {
    var s := [a, b, c, d];
    assert s[..3] == [a, b, c] && [a, b, c][..2] == [a, b] && [a, b][..1] == [a] && [a][..0] == [];
    assert Written(files, [a]) == files[a.path := a.content];
    assert Written(files, [a, b]) == Written(files, [a])[b.path := b.content];
    assert Written(files, [a, b, c]) == Written(files, [a, b])[c.path := c.content];
  }

  /** Five planned writes, one after the other. */
  lemma WrittenFive(files: map<string, Content>, a: Planned, b: Planned, c: Planned, d: Planned, e: Planned)
    ensures Written(files, [a, b, c, d, e])
         == files[a.path := a.content][b.path := b.content][c.path := c.content][d.path := d.content][e.path := e.content]
  {
    var s := [a, b, c, d, e];
    assert s[..4] == [a, b, c, d];
    WrittenFour(files, a, b, c, d);
  }
}
