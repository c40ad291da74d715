/**
 * The build-definition generator: one definition per YAML pipeline file,
 * assembled from a shared template, created as one batch and tracked so that
 * a rollback can delete them.
 */
module Builds {
  import opened Wrappers
  import opened Remote
  import opened JsStrings

  /** The path components of one YAML file path relative to the package directory. */
  datatype YamlDetails = YamlDetails(folder: Option<string>, path: string, root: string)

  /** The build process: its type and the YAML file it runs. */
  datatype Process = Process(processType: int, yamlFilename: string)

  /** The source repository; `settings` stands for the template's other repository fields. */
  datatype Repository = Repository(id: string, settings: map<string, string>)

  /** A reference to a variable group by id. */
  datatype GroupRef = GroupRef(id: int)

  /** A build definition; `settings` stands for the template fields the generator never touches. */
  datatype BuildDefinition = BuildDefinition(
    name: string,
    path: string,
    process: Process,
    repository: Repository,
    variableGroups: seq<GroupRef>,
    settings: map<string, string>)

  /** The process type of a YAML pipeline. */
  const YamlProcessType := 2
  /** What a template literal makes of a missing value. */
  const Undefined := "undefined"
  const CreationFailedMessage := "An error occured while creating build definitions."

  /**
   * A path's details: `root` is its first `/`-separated segment, `folder` its
   * second (missing when the path has no `/`), and `path` the path itself.
   */
  function DetailsOf(f: string): (d: YamlDetails)
    ensures d.path == f
    ensures '/' !in d.root && |d.root| <= |f| && f[..|d.root|] == d.root
    ensures d.folder.None? <==> '/' !in f
    ensures d.folder.None? ==> d.root == f
    ensures d.folder.Some? ==>
      && '/' !in d.folder.value
      && var rest := f[|d.root| + 1..];
      && f[|d.root|] == '/'
      && |d.folder.value| <= |rest| && rest[..|d.folder.value|] == d.folder.value
      && (|d.folder.value| == |rest| || rest[|d.folder.value|] == '/')
  {
    var parts := Split(f, '/');
    HeadOfSplit(f, '/');
    if |parts| >= 2 then
      HeadOfSplit(f[|parts[0]| + 1..], '/');
      YamlDetails(Some(parts[1]), f, parts[0])
    else
      YamlDetails(None, f, parts[0])
  }

  /** The details of each file, one per path and in the same order. */
  function GetYamlDetails(files: seq<string>): (r: seq<YamlDetails>)
    ensures |r| == |files|
    ensures forall i :: 0 <= i < |r| ==> r[i] == DetailsOf(files[i])
  {
    seq(|files|, i requires 0 <= i < |files| => DetailsOf(files[i]))
  }

  /** The variable-group ids as references, same length and order. */
  function GroupRefs(ids: seq<int>): (r: seq<GroupRef>)
    ensures |r| == |ids|
    ensures forall i :: 0 <= i < |r| ==> r[i].id == ids[i]
    decreases |ids|
  {
    if ids == [] then [] else [GroupRef(ids[0])] + GroupRefs(ids[1..])
  }

  /** The UI path of a definition: the package name without whitespace, a backslash, the root segment. */
  function UiPath(packageName: string, root: string): (p: string)
    ensures var n := |StripWhitespace(packageName)|;
      && |p| == n + 1 + |root|
      && p[..n] == StripWhitespace(packageName)
      && p[n] == '\\' && p[n + 1..] == root
  {
    StripWhitespace(packageName) + "\\" + root
  }

  /** One definition, built from a copy of the template. */
  function GenerateBuildDefinition(template: BuildDefinition, d: YamlDetails, packageName: string,
                                   repoId: string, variableGroupIds: seq<int>): (def: BuildDefinition)
    ensures def.name == if d.folder.Some? then d.folder.value else Undefined
    ensures def.process == Process(YamlProcessType, d.path)
    ensures |def.variableGroups| == |variableGroupIds|
    ensures forall i :: 0 <= i < |variableGroupIds| ==> def.variableGroups[i] == GroupRef(variableGroupIds[i])
    ensures def.repository == Repository(repoId, template.repository.settings)
    ensures def.settings == template.settings
    ensures def.path == UiPath(packageName, d.root)
  {
    template.(
      name := if d.folder.Some? then d.folder.value else Undefined,
      process := Process(YamlProcessType, d.path),
      variableGroups := GroupRefs(variableGroupIds),
      repository := template.repository.(id := repoId),
      path := UiPath(packageName, d.root))
  }

  /** One definition per details record, in the same order. */
  function Definitions(template: BuildDefinition, details: seq<YamlDetails>, packageName: string,
                       repoId: string, variableGroupIds: seq<int>): (r: seq<BuildDefinition>)
    ensures |r| == |details|
    ensures forall i :: 0 <= i < |r| ==>
      r[i] == GenerateBuildDefinition(template, details[i], packageName, repoId, variableGroupIds)
  {
    seq(|details|, i requires 0 <= i < |details| =>
      GenerateBuildDefinition(template, details[i], packageName, repoId, variableGroupIds))
  }

  /** A definition's UI path holds none of the package name's whitespace; the rest of the name is kept in order. */
  lemma {:induction false} UiPathShape(packageName: string, root: string)
    ensures var p := UiPath(packageName, root);
      forall i :: 0 <= i < |StripWhitespace(packageName)| ==> !IsJsWhitespace(p[i])
    ensures forall a, b :: packageName == a + b ==> UiPath(packageName, root) == StripWhitespace(a) + StripWhitespace(b) + "\\" + root
  {
    forall a, b | packageName == a + b
      ensures UiPath(packageName, root) == StripWhitespace(a) + StripWhitespace(b) + "\\" + root
    {
      StripConcat(a, b);
    }
  }

  /** A package name that already has no whitespace appears in the path unchanged. */
  lemma UiPathKeepsPlainName(packageName: string, root: string)
    requires forall i :: 0 <= i < |packageName| ==> !IsJsWhitespace(packageName[i])
    ensures UiPath(packageName, root) == packageName + "\\" + root
  {
    StripKeeps(packageName);
  }

  /**
   * For any path `a/b` or `a/b/...` (neither `a` nor `b` holding a `/`), the
   * definition is named `b`, runs the whole path and has UI path
   * `<package name without whitespace>\a`.
   */
  lemma {:induction false} DefinitionOfSegments(template: BuildDefinition, a: string, b: string, c: string,
                                                packageName: string, repoId: string, ids: seq<int>)
    requires '/' !in a && '/' !in b && (c == "" || c[0] == '/')
    ensures var f := a + "/" + b + c;
            var def := GenerateBuildDefinition(template, DetailsOf(f), packageName, repoId, ids);
            && def.name == b
            && def.process == Process(YamlProcessType, f)
            && def.path == UiPath(packageName, a)
  {
    var f := a + "/" + b + c;
    var d := DetailsOf(f);
    assert f[|a|] == '/';
    SamePrefixBeforeSlash(f, a, d.root);
    var rest := f[|a| + 1..];
    assert rest == b + c;
    assert d.folder.Some?;
    if |b| < |rest| {
      assert rest[|b|] == '/';
    }
    SamePrefixBeforeSlash(rest, b, d.folder.value);
  }

  /** Two slash-free prefixes of `f` that each end the string or stop at a slash are equal. */
  lemma SamePrefixBeforeSlash(f: string, x: string, y: string)
    requires '/' !in x && |x| <= |f| && f[..|x|] == x && (|x| == |f| || f[|x|] == '/')
    requires '/' !in y && |y| <= |f| && f[..|y|] == y && (|y| == |f| || f[|y|] == '/')
    ensures x == y
  {
    if |x| < |y| {
      assert false;
    } else if |y| < |x| {
      assert false;
    }
  }

  /**
   * `service-a/ci.yml` has root `service-a` and folder `ci.yml`, so its
   * definition is named `ci.yml` and its UI path ends in `\service-a`.
   */
  lemma TwoSegmentPath(template: BuildDefinition, f: string, packageName: string, repoId: string, ids: seq<int>)
    requires f == "service-a/ci.yml"
    ensures var def := GenerateBuildDefinition(template, DetailsOf(f), packageName, repoId, ids);
            def.name == "ci.yml" && def.path == UiPath(packageName, "service-a")
  {
    var a, b := f[..9], f[10..];
    assert a == "service-a" && b == "ci.yml" && f == a + "/" + b + "";
    assert '/' !in a && '/' !in b;
    DefinitionOfSegments(template, a, b, "", packageName, repoId, ids);
  }

  /** A path without `/` has itself as root and no folder, so its definition is named "undefined". */
  lemma SingleSegmentPath(template: BuildDefinition, f: string, packageName: string, repoId: string, ids: seq<int>)
    requires '/' !in f
    ensures DetailsOf(f) == YamlDetails(None, f, f)
    ensures GenerateBuildDefinition(template, DetailsOf(f), packageName, repoId, ids).name == "undefined"
  {
  }

  class BuildGenerator {
    /** The definitions this generator created and has not rolled back, oldest first. */
    var createdObjects: seq<Entry<BuildDefinition>>
    const conn: Store<BuildDefinition>
    /** The shared template; a `const`, so no generation can change it. */
    const template: BuildDefinition

    ghost predicate Valid()
      reads this, conn
    {
      conn.Valid() && forall o :: o in createdObjects ==> o.id < conn.nextId
    }

    constructor (conn: Store<BuildDefinition>, template: BuildDefinition)
      requires conn.Valid()
      ensures Valid()
      ensures this.conn == conn && this.template == template && createdObjects == []
    {
      this.conn := conn;
      this.template := template;
      createdObjects := [];
    }

    /**
     * Submits one definition per YAML path as a single batch. `files` is the
     * list of relative paths the glob found; `accepted` is the store's
     * answer to the batch. A rejected batch raises the creation error and
     * tracks nothing; an accepted one is tracked in full and returned. With
     * no files the empty batch resolves, so the result is empty and no error.
     */
    method Generate(files: seq<string>, project: string, packageName: string,
                    repoId: string, variableGroups: seq<int>, accepted: bool)
      returns (r: Result<seq<Entry<BuildDefinition>>, GenerateError>)
      requires Valid()
      modifies this, conn
      ensures Valid()
      ensures var defs := Definitions(template, GetYamlDetails(files), packageName, repoId, variableGroups);
              && |defs| == |files|
              && conn.calls == old(conn.calls) + CreateCalls(project, defs)
      ensures r.Failure? <==> !accepted && files != []
      ensures files == [] ==> r == Success([]) && createdObjects == old(createdObjects)
      ensures !accepted && files != [] ==> r == Failure(CreationFailed(CreationFailedMessage)) && createdObjects == old(createdObjects)
      ensures var defs := Definitions(template, GetYamlDetails(files), packageName, repoId, variableGroups);
              var created := Assign(project, defs, old(conn.nextId));
              accepted || files == [] ==>
                && r == Success(created)
                && createdObjects == old(createdObjects) + created
                && conn.entries == old(conn.entries) + created
                && conn.nextId == old(conn.nextId) + |created|
    {
      var yamlDetails := GetYamlDetails(files);
      var defs := Definitions(template, yamlDetails, packageName, repoId, variableGroups);
      var buildDefs := conn.CreateAll(project, defs, accepted);
      if buildDefs.None? {
        return Failure(CreationFailed(CreationFailedMessage));
      }
      createdObjects := createdObjects + buildDefs.value;
      r := Success(buildDefs.value);
    }

    /** Deletes every tracked definition with one delete call each, then forgets them all. */
    method Rollback(project: string)
      requires Valid()
      modifies this, conn
      ensures Valid()
      ensures createdObjects == []
      ensures conn.calls == old(conn.calls) + DeleteCalls(project, old(createdObjects))
      ensures conn.entries == Without(old(conn.entries), project, Ids(old(createdObjects)))
      ensures conn.nextId == old(conn.nextId)
    {
      conn.DeleteAll(project, createdObjects);
      createdObjects := [];
    }
  }
}
