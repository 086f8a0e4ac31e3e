/** The directory plan of `PrepareTasks`: which script folders are read, in which
    order, and in which direction each is sorted. The engine and the legacy runner
    differ only in their category orders (the runner has no index folders). */
module Plans {
  import opened Enumerations

  /** A folder `Scripts/<category>/<Up|Down>`; `direction` is `Up` or `Down`. */
  datatype Folder = Folder(category: Category, direction: MigrationType)

  function CategoryFolder(c: Category): string {
    match c
    case Procs => "StoredProcedures"
    case Schemas => "Schemas"
    case Alters => "Alters"
    case Indexes => "Indexes"
  }

  /** `$"{Environment.CurrentDirectory}/Scripts/..."`. */
  function FolderPath(cwd: string, f: Folder): string {
    cwd + "/Scripts/" + CategoryFolder(f.category) + (if f.direction == Up then "/Up" else "/Down")
  }

  /** Up folders are read in ascending name order, Down folders in descending order. */
  function SortAscending(f: Folder): bool {
    f.direction == Up
  }

  /** The engine's folder order for each direction. */
  const EngineDownOrder: seq<Category> := [Procs, Indexes, Alters, Schemas]
  const EngineUpOrder: seq<Category> := [Schemas, Alters, Indexes, Procs]

  /** The legacy runner's folder order: the same without the index folders. */
  const RunnerDownOrder: seq<Category> := [Procs, Alters, Schemas]
  const RunnerUpOrder: seq<Category> := [Schemas, Alters, Procs]

  /** A folder of a selected category is read in Development, and otherwise only
      when it is `Schemas/Down` or `StoredProcedures/Up`. */
  predicate Allowed(c: Category, d: MigrationType, env: HostEnvironment, targets: set<Category>) {
    c in targets && (env == Development || (d == Down && c == Schemas) || (d == Up && c == Procs))
  }

  /** Whether the configured migration type covers direction `d`. */
  predicate Covers(t: MigrationType, d: MigrationType) {
    t == Both || t == d
  }

  /** The allowed folders of direction `d`, in the given category order. */
  function Folders(order: seq<Category>, d: MigrationType, env: HostEnvironment, targets: set<Category>): (r: seq<Folder>)
    ensures forall i :: 0 <= i < |r| ==> r[i].direction == d
    ensures |r| <= |order|
    decreases |order|
  {
    if order == [] then []
    else
      var rest := Folders(order[1..], d, env, targets);
      if Allowed(order[0], d, env, targets) then [Folder(order[0], d)] + rest else rest
  }

  /** A folder is listed exactly when its category is in the order and allowed. */
  lemma {:induction false} FoldersMembership(order: seq<Category>, d: MigrationType, env: HostEnvironment, targets: set<Category>, f: Folder)
    ensures f in Folders(order, d, env, targets) <==> f.direction == d && f.category in order && Allowed(f.category, d, env, targets)
    decreases |order|
  {
    if order != [] {
      FoldersMembership(order[1..], d, env, targets, f);
      assert f.category in order <==> f.category == order[0] || f.category in order[1..];
    }
  }

  /** `PrepareTasks`: the Down folders, then the Up folders. */
  function Plan(t: MigrationType, env: HostEnvironment, targets: set<Category>, downOrder: seq<Category>, upOrder: seq<Category>): seq<Folder> {
    (if Covers(t, Down) then Folders(downOrder, Down, env, targets) else [])
    + (if Covers(t, Up) then Folders(upOrder, Up, env, targets) else [])
  }

  function EnginePlan(t: MigrationType, env: HostEnvironment, targets: set<Category>): seq<Folder> {
    Plan(t, env, targets, EngineDownOrder, EngineUpOrder)
  }

  function RunnerPlan(t: MigrationType, env: HostEnvironment, targets: set<Category>): seq<Folder> {
    Plan(t, env, targets, RunnerDownOrder, RunnerUpOrder)
  }

  lemma EngineOrdersCoverAll(c: Category)
    ensures c in EngineDownOrder && c in EngineUpOrder
  {
  }

  /** The engine reads a folder exactly when the migration type covers its
      direction, its category is selected, and the environment allows it. */
  lemma EnginePlanMembership(t: MigrationType, env: HostEnvironment, targets: set<Category>, f: Folder)
    ensures f in EnginePlan(t, env, targets) <==>
              (f.direction == Down || f.direction == Up) && Covers(t, f.direction) && Allowed(f.category, f.direction, env, targets)
  {
    EngineOrdersCoverAll(f.category);
    FoldersMembership(EngineDownOrder, Down, env, targets, f);
    FoldersMembership(EngineUpOrder, Up, env, targets, f);
  }

  /** The runner reads the same folders as the engine, except the index folders, which it never reads. */
  lemma RunnerPlanMembership(t: MigrationType, env: HostEnvironment, targets: set<Category>, f: Folder)
    ensures f in RunnerPlan(t, env, targets) <==> f in EnginePlan(t, env, targets) && f.category != Indexes
  {
    EnginePlanMembership(t, env, targets, f);
    FoldersMembership(RunnerDownOrder, Down, env, targets, f);
    FoldersMembership(RunnerUpOrder, Up, env, targets, f);
    assert f.category in RunnerDownOrder <==> f.category != Indexes;
    assert f.category in RunnerUpOrder <==> f.category != Indexes;
  }

  /** In any plan no Down folder comes after an Up folder. */
  lemma DownBeforeUp(t: MigrationType, env: HostEnvironment, targets: set<Category>, downOrder: seq<Category>, upOrder: seq<Category>)
    ensures var p := Plan(t, env, targets, downOrder, upOrder);
            forall i, j :: 0 <= i < j < |p| && p[i].direction == Up ==> p[j].direction == Up
    ensures forall f :: f in Plan(t, env, targets, downOrder, upOrder) ==> (SortAscending(f) <==> f.direction == Up)
  {
    var down := if Covers(t, Down) then Folders(downOrder, Down, env, targets) else [];
    var up := if Covers(t, Up) then Folders(upOrder, Up, env, targets) else [];
    var p := down + up;
    forall i, j | 0 <= i < j < |p| && p[i].direction == Up
      ensures p[j].direction == Up
    {
      assert i >= |down|;
      assert p[j] == up[j - |down|];
    }
  }

  /** Outside Development the engine reads at most `Schemas/Down`, then `StoredProcedures/Up`. */
  lemma EnginePlanOutsideDevelopment(t: MigrationType, env: HostEnvironment, targets: set<Category>)
    requires env != Development
    ensures EnginePlan(t, env, targets) ==
              (if Covers(t, Down) && Schemas in targets then [Folder(Schemas, Down)] else [])
              + (if Covers(t, Up) && Procs in targets then [Folder(Procs, Up)] else [])
  {
    assert EngineDownOrder[1..][1..][1..][1..] == [];
    assert EngineUpOrder[1..][1..][1..][1..] == [];
  }

  /** Migration type `None` reads no folder at all. */
  lemma NonePlansNothing(env: HostEnvironment, targets: set<Category>, downOrder: seq<Category>, upOrder: seq<Category>)
    ensures Plan(MigrationType.None, env, targets, downOrder, upOrder) == []
  {
  }

  /** When every category of the order is allowed, each becomes a folder, in order. */
  lemma {:induction false} AllAllowed(order: seq<Category>, d: MigrationType, env: HostEnvironment, targets: set<Category>)
    requires forall i :: 0 <= i < |order| ==> Allowed(order[i], d, env, targets)
    ensures |Folders(order, d, env, targets)| == |order|
    ensures forall i :: 0 <= i < |order| ==> Folders(order, d, env, targets)[i] == Folder(order[i], d)
    decreases |order|
  {
    if order != [] {
      AllAllowed(order[1..], d, env, targets);
    }
  }

  /** In Development with every target, the engine reads all eight folders in this order. */
  lemma EngineFullPlan(t: MigrationType)
    requires t == Both
    ensures EnginePlan(t, Development, AllTargets) ==
              [Folder(Procs, Down), Folder(Indexes, Down), Folder(Alters, Down), Folder(Schemas, Down),
               Folder(Schemas, Up), Folder(Alters, Up), Folder(Indexes, Up), Folder(Procs, Up)]
  {
    AllAllowed(EngineDownOrder, Down, Development, AllTargets);
    AllAllowed(EngineUpOrder, Up, Development, AllTargets);
    var down := Folders(EngineDownOrder, Down, Development, AllTargets);
    var up := Folders(EngineUpOrder, Up, Development, AllTargets);
    assert down == [Folder(Procs, Down), Folder(Indexes, Down), Folder(Alters, Down), Folder(Schemas, Down)];
    assert up == [Folder(Schemas, Up), Folder(Alters, Up), Folder(Indexes, Up), Folder(Procs, Up)];
  }
}
