/**
 * The variable-group generator: which groups it creates from the optional
 * overrides, which pre-existing groups it looks up by name, and the
 * bookkeeping of what it created so that a rollback can delete it.
 */
module VarGroups {
  import opened Wrappers
  import opened Remote

  /** What is sent to create a variable group: its name and its variables' values. */
  datatype GroupParams = GroupParams(name: string, variables: map<string, string>)

  /** A variable group as the store returns it. */
  type VariableGroup = Entry<GroupParams>

  /** The four group templates the generator is built from. */
  datatype Templates = Templates(
    package: GroupParams,
    ci: GroupParams,
    staging: GroupParams,
    sharedKey: GroupParams)

  const PackagePrefix := "Package - "
  const ConnectionStringVar := "ConnectionString"
  const PackageReadKeyVar := "CapgeminiUkPackageReadKey"

  /** JavaScript truthiness of an optional string: supplied and not empty. */
  predicate Truthy(o: Option<string>): (r: bool)
    ensures o.None? ==> !r
    ensures o == Some("") ==> !r
    ensures o.Some? && |o.value| > 0 ==> r
  {
    o.Some? && o.value != ""
  }

  /** 1 for a truthy value and 0 otherwise, for counting the groups created. */
  function Flag(o: Option<string>): (n: nat)
    ensures n <= 1
    ensures n == 1 <==> Truthy(o)
  {
    if Truthy(o) then 1 else 0
  }

  /** The package template renamed after the package. */
  function PackageGroup(t: Templates, packageName: string): (g: GroupParams)
    ensures g.name == PackagePrefix + packageName
    ensures g.variables == t.package.variables
  {
    t.package.(name := PackagePrefix + packageName)
  }

  /** A template with one variable's value set; every other variable is kept. */
  function WithSecret(g: GroupParams, variable: string, value: string): (r: GroupParams)
    ensures r.name == g.name
    ensures variable in r.variables && r.variables[variable] == value
    ensures r.variables.Keys == g.variables.Keys + {variable}
    ensures forall v :: v in g.variables && v != variable ==> r.variables[v] == g.variables[v]
  {
    g.(variables := g.variables[variable := value])
  }

  /**
   * The groups to create, in order: always the package group, then the CI,
   * staging and shared-key groups, each only when its value is truthy and
   * each carrying exactly that value.
   */
  function GroupsToCreate(t: Templates, packageName: string,
                          ciConn: Option<string>, stagingConn: Option<string>, nuget: Option<string>): (r: seq<GroupParams>)
    ensures |r| == 1 + Flag(ciConn) + Flag(stagingConn) + Flag(nuget)
    ensures r[0] == PackageGroup(t, packageName)
    ensures Truthy(ciConn) ==> r[1] == WithSecret(t.ci, ConnectionStringVar, ciConn.value)
    ensures Truthy(stagingConn) ==> r[1 + Flag(ciConn)] == WithSecret(t.staging, ConnectionStringVar, stagingConn.value)
    ensures Truthy(nuget) ==> r[|r| - 1] == WithSecret(t.sharedKey, PackageReadKeyVar, nuget.value)
  {
    [PackageGroup(t, packageName)]
    + (if Truthy(ciConn) then [WithSecret(t.ci, ConnectionStringVar, ciConn.value)] else [])
    + (if Truthy(stagingConn) then [WithSecret(t.staging, ConnectionStringVar, stagingConn.value)] else [])
    + (if Truthy(nuget) then [WithSecret(t.sharedKey, PackageReadKeyVar, nuget.value)] else [])
  }

  /** Whether `generate` returns right after creating, without any lookup. */
  predicate ShortCircuits(ciConn: Option<string>, nuget: Option<string>): (r: bool)
    ensures r <==> Flag(ciConn) + Flag(nuget) == 2
  {
    Truthy(ciConn) && Truthy(nuget)
  }

  /**
   * The names of the optional groups that were not supplied, looked up among
   * the existing groups, in the order CI, staging, shared key.
   */
  function ExistingNames(t: Templates, ciConn: Option<string>, stagingConn: Option<string>, nuget: Option<string>): (r: seq<string>)
    ensures |r| == 3 - Flag(ciConn) - Flag(stagingConn) - Flag(nuget)
    ensures !Truthy(ciConn) ==> r[0] == t.ci.name
    ensures !Truthy(stagingConn) ==> r[1 - Flag(ciConn)] == t.staging.name
    ensures !Truthy(nuget) ==> r[|r| - 1] == t.sharedKey.name
  {
    (if !Truthy(ciConn) then [t.ci.name] else [])
    + (if !Truthy(stagingConn) then [t.staging.name] else [])
    + (if !Truthy(nuget) then [t.sharedKey.name] else [])
  }

  /**
   * Each optional group is either created or looked up, never both and never
   * neither (the three template names being distinct).
   */
  lemma CreatedOrLookedUp(t: Templates, packageName: string,
                          ciConn: Option<string>, stagingConn: Option<string>, nuget: Option<string>)
    requires t.ci.name != t.staging.name && t.ci.name != t.sharedKey.name && t.staging.name != t.sharedKey.name
    ensures |GroupsToCreate(t, packageName, ciConn, stagingConn, nuget)| + |ExistingNames(t, ciConn, stagingConn, nuget)| == 4
    ensures t.ci.name in ExistingNames(t, ciConn, stagingConn, nuget) <==> !Truthy(ciConn)
    ensures t.staging.name in ExistingNames(t, ciConn, stagingConn, nuget) <==> !Truthy(stagingConn)
    ensures t.sharedKey.name in ExistingNames(t, ciConn, stagingConn, nuget) <==> !Truthy(nuget)
  {
  }

  /** The first listed group with exactly this name, if any. */
  function FindByName(listed: seq<VariableGroup>, name: string): (r: Option<VariableGroup>)
    ensures r.None? <==> forall i :: 0 <= i < |listed| ==> listed[i].body.name != name
    ensures r.Some? ==> exists j :: 0 <= j < |listed| && listed[j] == r.value && r.value.body.name == name
                                 && forall k :: 0 <= k < j ==> listed[k].body.name != name
    decreases |listed|
  {
    if listed == [] then None
    else if listed[0].body.name == name then Some(listed[0])
    else
      var r := FindByName(listed[1..], name);
      assert r.Some? ==> exists j :: 0 <= j < |listed[1..]| && listed[1..][j] == r.value && r.value.body.name == name
                                 && forall k :: 0 <= k < j ==> listed[1..][k].body.name != name;
      assert r.Some? ==> exists j :: 1 <= j < |listed| && listed[j] == r.value && r.value.body.name == name
                                 && forall k :: 1 <= k < j ==> listed[k].body.name != name;
      r
  }

  /** One lookup per requested name, in the order requested. */
  function FindAll(listed: seq<VariableGroup>, names: seq<string>): (r: seq<Option<VariableGroup>>)
    ensures |r| == |names|
    ensures forall i :: 0 <= i < |names| ==> r[i] == FindByName(listed, names[i])
    decreases |names|
  {
    if names == [] then [] else [FindByName(listed, names[0])] + FindAll(listed, names[1..])
  }

  /** The created groups as entries of the returned sequence. */
  function AsFound(created: seq<VariableGroup>): (r: seq<Option<VariableGroup>>)
    ensures |r| == |created|
    ensures forall i :: 0 <= i < |r| ==> r[i] == Some(created[i])
  {
    seq(|created|, i requires 0 <= i < |created| => Some(created[i]))
  }

  class VarGroupGenerator {
    /** The groups this generator created and has not rolled back, oldest first. */
    var createdObjects: seq<VariableGroup>
    const conn: Store<GroupParams>
    const templates: Templates

    /** Every tracked group was created by the store, so its id is below the store's next id. */
    ghost predicate Valid()
      reads this, conn
    {
      conn.Valid() && forall o :: o in createdObjects ==> o.id < conn.nextId
    }

    constructor (conn: Store<GroupParams>, templates: Templates)
      requires conn.Valid()
      ensures Valid()
      ensures this.conn == conn && this.templates == templates && createdObjects == []
    {
      this.conn := conn;
      this.templates := templates;
      createdObjects := [];
    }

    /**
     * Creates the selected groups as one batch and tracks them; unless both
     * the CI connection and the key were supplied, then lists the project's
     * groups once and appends one lookup result per missing group.
     * `accepted` is the store's answer to the create batch and `listed` its
     * answer to the list call. A rejected list call rejects `generate` with
     * the created groups already tracked.
     */
    method Generate(project: string, packageName: string,
                    ciConn: Option<string>, stagingConn: Option<string>, nuget: Option<string>,
                    accepted: bool, listed: bool)
      returns (r: Result<seq<Option<VariableGroup>>, GenerateError>)
      requires Valid()
      modifies this, conn
      ensures Valid()
      ensures r.Failure? <==> !accepted || (!ShortCircuits(ciConn, nuget) && !listed)
      ensures var toCreate := GroupsToCreate(templates, packageName, ciConn, stagingConn, nuget);
              !accepted ==>
                && r == Failure(RemoteRejected)
                && createdObjects == old(createdObjects)
                && conn.calls == old(conn.calls) + CreateCalls(project, toCreate)
      ensures var toCreate := GroupsToCreate(templates, packageName, ciConn, stagingConn, nuget);
              var created := Assign(project, toCreate, old(conn.nextId));
              accepted ==>
                && createdObjects == old(createdObjects) + created
                && conn.entries == old(conn.entries) + created
                && conn.nextId == old(conn.nextId) + |created|
      ensures var toCreate := GroupsToCreate(templates, packageName, ciConn, stagingConn, nuget);
              var created := Assign(project, toCreate, old(conn.nextId));
              accepted && ShortCircuits(ciConn, nuget) ==>
                && r == Success(AsFound(created))
                && conn.calls == old(conn.calls) + CreateCalls(project, toCreate)
      ensures var toCreate := GroupsToCreate(templates, packageName, ciConn, stagingConn, nuget);
              var created := Assign(project, toCreate, old(conn.nextId));
              var names := ExistingNames(templates, ciConn, stagingConn, nuget);
              accepted && !ShortCircuits(ciConn, nuget) ==>
                && (listed ==> r == Success(AsFound(created) + FindAll(InProject(old(conn.entries) + created, project), names)))
                && (!listed ==> r == Failure(RemoteRejected))
                && conn.calls == old(conn.calls) + CreateCalls(project, toCreate) + [ListCall(project)]
    {
      var groupsToCreate := GroupsToCreate(templates, packageName, ciConn, stagingConn, nuget);
      var varGroups := conn.CreateAll(project, groupsToCreate, accepted);
      if varGroups.None? {
        return Failure(RemoteRejected);
      }
      createdObjects := createdObjects + varGroups.value;
      if Truthy(ciConn) && Truthy(nuget) {
        return Success(AsFound(varGroups.value));
      }
      var existingGroups := ExistingNames(templates, ciConn, stagingConn, nuget);
      var existing := conn.List(project, listed);
      if existing.None? {
        return Failure(RemoteRejected);
      }
      r := Success(AsFound(varGroups.value) + FindAll(existing.value, existingGroups));
    }

    /** Deletes every tracked group with one delete call each, then forgets them all. */
    method Rollback(project: string)
      requires Valid()
      modifies this, conn
      ensures Valid()
      ensures createdObjects == []
      ensures conn.calls == old(conn.calls) + DeleteCalls(project, old(createdObjects))
      ensures conn.entries == Without(old(conn.entries), project, Ids(old(createdObjects)))
      ensures conn.nextId == old(conn.nextId)
    {
      conn.DeleteAll(project, createdObjects);
      createdObjects := [];
    }
  }

  /**
   * A group the store held before `generate` is never among the groups it
   * creates, so rolling back exactly those groups leaves it in place.
   */
  lemma ExistingGroupsSurviveRollback(before: seq<VariableGroup>, nextId: int, project: string,
                                      toCreate: seq<GroupParams>)
    requires forall e :: e in before ==> e.id < nextId
    ensures var created := Assign(project, toCreate, nextId);
            forall g :: g in before ==> g !in created && g in Without(before + created, project, Ids(created))
  {
    AllPreexistingSurvive(before, Assign(project, toCreate, nextId), nextId, project);
  }

  /**
   * The class-level form of the lemma above: a generator that tracks nothing,
   * an accepted `generate` (whether or not its list call then rejects), then
   * `rollback` leaves every group the store held before.
   */
  method GenerateThenRollback(g: VarGroupGenerator, project: string, packageName: string,
                              ciConn: Option<string>, stagingConn: Option<string>, nuget: Option<string>,
                              listed: bool)
    requires g.Valid() && g.createdObjects == []
    modifies g, g.conn
    ensures g.Valid() && g.createdObjects == []
    ensures forall e :: e in old(g.conn.entries) ==> e in g.conn.entries
  {
    ghost var before := g.conn.entries;
    ghost var first := g.conn.nextId;
    ghost var toCreate := GroupsToCreate(g.templates, packageName, ciConn, stagingConn, nuget);
    var r := g.Generate(project, packageName, ciConn, stagingConn, nuget, true, listed);
    ExistingGroupsSurviveRollback(before, first, project, toCreate);
    g.Rollback(project);
  }

  /** A second rollback finds nothing tracked and sends no call. */
  method RollbackTwice(g: VarGroupGenerator, project: string)
    requires g.Valid()
    modifies g, g.conn
    ensures g.Valid() && g.createdObjects == []
    ensures g.conn.calls == old(g.conn.calls) + DeleteCalls(project, old(g.createdObjects))
  {
    g.Rollback(project);
    ghost var afterFirst := g.conn.calls;
    g.Rollback(project);
    assert g.conn.calls == afterFirst;
  }

  /** With no override at all, only the package group is created and all three others are looked up. */
  lemma NoOverrides(t: Templates, packageName: string)
    ensures GroupsToCreate(t, packageName, None, None, None) == [PackageGroup(t, packageName)]
    ensures ExistingNames(t, None, None, None) == [t.ci.name, t.staging.name, t.sharedKey.name]
    ensures !ShortCircuits(None, None)
  {
  }

  /** An empty string counts as not supplied. */
  lemma EmptyIsNotSupplied(t: Templates, packageName: string)
    ensures GroupsToCreate(t, packageName, Some(""), Some(""), Some("")) == GroupsToCreate(t, packageName, None, None, None)
    ensures ExistingNames(t, Some(""), Some(""), Some("")) == ExistingNames(t, None, None, None)
  {
  }

  /**
   * Package "My Pkg" with only a CI connection "X": the package group and a CI
   * group holding "X" are created; staging and the shared key are looked up.
   */
  lemma CiOnlyScenario(t: Templates)
    ensures var groups := GroupsToCreate(t, "My Pkg", Some("X"), None, None);
            && |groups| == 2
            && groups[0].name == "Package - My Pkg"
            && groups[1].name == t.ci.name && groups[1].variables[ConnectionStringVar] == "X"
    ensures ExistingNames(t, Some("X"), None, None) == [t.staging.name, t.sharedKey.name]
  {
  }
}
