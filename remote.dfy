/**
 * The remote object store that stands for the Azure DevOps connection: per
 * object kind it can create, delete and list objects. It keeps the objects
 * it holds in listing order, the next identifier it will assign, and a log
 * of every call it has been sent, so that the generators' contracts can say
 * which calls they issue.
 */
module Remote {
  import opened Wrappers

  /** An object as the store holds it: its server-assigned id, its project and its contents. */
  datatype Entry<T> = Entry(id: int, project: string, body: T)

  /** One call sent to the store. */
  datatype Call<T> =
    | CreateCall(project: string, body: T)
    | DeleteCall(project: string, id: int)
    | ListCall(project: string)

  /** How a generator's `generate` fails. */
  datatype GenerateError =
    | RemoteRejected                  // a create or list call was rejected and the rejection propagates as is
    | CreationFailed(message: string) // the rejection was caught and replaced by this error

  /** The ids of some objects. */
  function Ids<T(==)>(es: seq<Entry<T>>): (r: set<int>)
    ensures forall e :: e in es ==> e.id in r
    ensures forall id :: id in r ==> exists e :: e in es && e.id == id
  {
    set e | e in es :: e.id
  }

  /** The objects of one project, in listing order. */
  function InProject<T(==)>(es: seq<Entry<T>>, project: string): (r: seq<Entry<T>>)
    ensures forall e :: e in r ==> e in es && e.project == project
    ensures forall e :: e in es && e.project == project ==> e in r
    ensures |r| <= |es|
  {
    if es == [] then []
    else (if es[0].project == project then [es[0]] else []) + InProject(es[1..], project)
  }

  /** The objects left after deleting the given ids from one project, in listing order. */
  function Without<T(==)>(es: seq<Entry<T>>, project: string, ids: set<int>): (r: seq<Entry<T>>)
    ensures forall e :: e in r ==> e in es && !(e.project == project && e.id in ids)
    ensures forall e :: e in es && !(e.project == project && e.id in ids) ==> e in r
    ensures |r| <= |es|
  {
    if es == [] then []
    else (if es[0].project == project && es[0].id in ids then [] else [es[0]]) + Without(es[1..], project, ids)
  }

  /** Deleting one id after a set of ids is deleting the larger set at once. */
  lemma {:induction false} WithoutStep<T>(es: seq<Entry<T>>, project: string, ids: set<int>, id: int)
    ensures Without(Without(es, project, ids), project, {id}) == Without(es, project, ids + {id})
    decreases |es|
  {
    if es != [] {
      WithoutStep(es[1..], project, ids, id);
      var head := if es[0].project == project && es[0].id in ids then [] else [es[0]];
      var w := Without(es, project, ids);
      assert w == head + Without(es[1..], project, ids);
      if head == [] {
        assert w == Without(es[1..], project, ids);
      } else {
        assert w[0] == es[0] && w[1..] == Without(es[1..], project, ids);
      }
    }
  }

  /** Deleting nothing leaves every object. */
  lemma {:induction false} WithoutNothing<T>(es: seq<Entry<T>>, project: string)
    ensures Without(es, project, {}) == es
    decreases |es|
  {
    if es != [] {
      WithoutNothing(es[1..], project);
      assert es == [es[0]] + es[1..];
    }
  }

  /** An object older than every deleted one survives the deletion. */
  lemma PreexistingSurvives<T>(before: seq<Entry<T>>, created: seq<Entry<T>>, nextId: int, project: string, e: Entry<T>)
    requires forall x :: x in before ==> x.id < nextId
    requires forall x :: x in created ==> x.id >= nextId
    requires e in before
    ensures e in Without(before + created, project, Ids(created))
  {
    assert e in before + created;
  }

  /** Every entry of `before` survives deleting the ids of entries created after it. */
  lemma AllPreexistingSurvive<T>(before: seq<Entry<T>>, created: seq<Entry<T>>, nextId: int, project: string)
    requires forall x :: x in before ==> x.id < nextId
    requires forall x :: x in created ==> x.id >= nextId
    ensures forall e :: e in before ==> e in Without(before + created, project, Ids(created))
  {
    forall e | e in before
      ensures e in Without(before + created, project, Ids(created))
    {
      PreexistingSurvives(before, created, nextId, project, e);
    }
  }

  /** Extending a prefix of objects by one adds one id and one delete call. */
  lemma PrefixStep<T>(project: string, objs: seq<Entry<T>>, i: nat)
    requires i < |objs|
    ensures Ids(objs[..i + 1]) == Ids(objs[..i]) + {objs[i].id}
    ensures DeleteCalls(project, objs[..i + 1]) == DeleteCalls(project, objs[..i]) + [DeleteCall(project, objs[i].id)]
  {
    assert objs[..i + 1] == objs[..i] + [objs[i]];
  }

  /** The create calls for a batch, one per body, in order. */
  function CreateCalls<T>(project: string, bodies: seq<T>): (r: seq<Call<T>>)
    ensures |r| == |bodies|
    ensures forall i :: 0 <= i < |r| ==> r[i] == CreateCall(project, bodies[i])
  {
    seq(|bodies|, i requires 0 <= i < |bodies| => CreateCall(project, bodies[i]))
  }

  /** The delete calls for some objects, one per object and keyed by its id, in order. */
  function DeleteCalls<T>(project: string, objs: seq<Entry<T>>): (r: seq<Call<T>>)
    ensures |r| == |objs|
    ensures forall i :: 0 <= i < |r| ==> r[i] == DeleteCall(project, objs[i].id)
  {
    seq(|objs|, i requires 0 <= i < |objs| => DeleteCall(project, objs[i].id))
  }

  /** The objects a successful batch creates: consecutive fresh ids from `first`, bodies in order. */
  function Assign<T>(project: string, bodies: seq<T>, first: int): (r: seq<Entry<T>>)
    ensures |r| == |bodies|
    ensures forall i :: 0 <= i < |r| ==> r[i] == Entry(first + i, project, bodies[i])
    ensures forall e :: e in r ==> e.id >= first
  {
    seq(|bodies|, i requires 0 <= i < |bodies| => Entry(first + i, project, bodies[i]))
  }

  class Store<T(==)> {
    /** The objects the store holds, in the order a list call returns them. */
    var entries: seq<Entry<T>>
    /** The id the store assigns to the next object it creates. */
    var nextId: int
    /** Every call sent to the store, oldest first. */
    var calls: seq<Call<T>>

    /** Every id in use is below `nextId`, so created objects get fresh ids. */
    ghost predicate Valid()
      reads this
    {
      forall e :: e in entries ==> e.id < nextId
    }

    constructor (entries: seq<Entry<T>>, nextId: int)
      requires forall e :: e in entries ==> e.id < nextId
      ensures Valid()
      ensures this.entries == entries && this.nextId == nextId && calls == []
    {
      this.entries := entries;
      this.nextId := nextId;
      calls := [];
    }

    /**
     * One batch of create calls, all issued together. `accepted` is the
     * remote's answer: whether every create call resolves. An empty batch
     * sends nothing and always resolves, as `Promise.all([])` does. When a
     * non-empty batch is rejected, which of the creates took effect is left
     * unspecified.
     */
    method CreateAll(project: string, bodies: seq<T>, accepted: bool) returns (r: Option<seq<Entry<T>>>)
      requires Valid()
      modifies this
      ensures Valid()
      ensures calls == old(calls) + CreateCalls(project, bodies)
      ensures nextId >= old(nextId)
      ensures bodies == [] ==> r == Some([]) && entries == old(entries) && nextId == old(nextId)
      ensures accepted || bodies == [] ==> r == Some(Assign(project, bodies, old(nextId)))
      ensures accepted || bodies == [] ==> entries == old(entries) + r.value && nextId == old(nextId) + |bodies|
      ensures !accepted && bodies != [] ==> r == None
    {
      calls := calls + CreateCalls(project, bodies);
      if accepted || bodies == [] {
        var created := Assign(project, bodies, nextId);
        entries := entries + created;
        nextId := nextId + |bodies|;
        r := Some(created);
      } else {
        r := None;
      }
    }

    /** Deletes the object with this id from the project, if there is one. */
    method Delete(project: string, id: int)
      requires Valid()
      modifies this
      ensures Valid()
      ensures entries == Without(old(entries), project, {id})
      ensures calls == old(calls) + [DeleteCall(project, id)]
      ensures nextId == old(nextId)
    {
      entries := Without(entries, project, {id});
      calls := calls + [DeleteCall(project, id)];
    }

    /**
     * Lists the objects of a project. `answered` is the remote's answer:
     * whether the list call resolves. A rejected call returns nothing.
     */
    method List(project: string, answered: bool) returns (r: Option<seq<Entry<T>>>)
      modifies this
      ensures answered ==> r == Some(InProject(entries, project))
      ensures !answered ==> r == None
      ensures entries == old(entries) && nextId == old(nextId)
      ensures calls == old(calls) + [ListCall(project)]
    {
      calls := calls + [ListCall(project)];
      if answered {
        r := Some(InProject(entries, project));
      } else {
        r := None;
      }
    }

    /** The fan-out of a rollback: one delete call per object, keyed by the object's id. */
    method DeleteAll(project: string, objs: seq<Entry<T>>)
      requires Valid()
      modifies this
      ensures Valid()
      ensures calls == old(calls) + DeleteCalls(project, objs)
      ensures entries == Without(old(entries), project, Ids(objs))
      ensures nextId == old(nextId)
    {
      ghost var calls0, entries0 := calls, entries;
      WithoutNothing(entries0, project);
      ghost var gone: set<int> := {};
      assert Ids(objs[..0]) == gone;
      var i := 0;
      while i < |objs|
        invariant 0 <= i <= |objs|
        invariant Valid()
        invariant gone == Ids(objs[..i])
        invariant calls == calls0 + DeleteCalls(project, objs[..i])
        invariant entries == Without(entries0, project, gone)
        invariant nextId == old(nextId)
      {
        var id := objs[i].id;
        WithoutStep(entries0, project, gone, id);
        PrefixStep(project, objs, i);
        Delete(project, id);
        gone := gone + {id};
        i := i + 1;
      }
      assert objs[..i] == objs;
    }
  }
}
