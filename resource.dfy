/**
 * CRM_Resource_BAO_Resource: a resource, the process-wide cache of resources by id,
 * the compute-once table of linkable entity types, and the queries a resource answers
 * about its assigned demands, its linked host record and its unavailabilities.
 */
module ResourceBao {
  import opened Wrappers
  import opened PhpValues
  import opened PhpArrays
  import opened Store

  /**
   * CRM_Resource_BAO_ResourceAssignment::STATUS_CONFIRMED. Its value is defined outside
   * this file, so the model leaves it uninterpreted.
   */
  const STATUS_CONFIRMED: int

  /** The `$assignment_status` argument: one status, or an array of them. */
  datatype StatusArg = OneStatus(v: PhpValue) | StatusList(vs: seq<PhpValue>)

  /** The default argument `[STATUS_CONFIRMED]`. */
  function DefaultStatusArg(): StatusArg
  {
    StatusList([PInt(STATUS_CONFIRMED)])
  }

  /** A single status is wrapped into a one-element array, then every entry becomes an integer. */
  function NormaliseStatuses(arg: StatusArg): (r: seq<int>)
    ensures arg.OneStatus? ==> r == [IntVal(arg.v)]
    ensures arg.StatusList? ==> |r| == |arg.vs| && forall i :: 0 <= i < |r| ==> r[i] == IntVal(arg.vs[i])
  {
    match arg
    case OneStatus(v) => IntVals([v])
    case StatusList(vs) => IntVals(vs)
  }

  /** The array `getAssignedDemands` returns: demand ids in first-assignment order, each with its demand. */
  ghost predicate IsAssignedDemands(db: Database, resourceId: int, statuses: seq<int>, r: PhpArray<int, Demand>)
  {
    && r.Valid()
    && r.keys == Dedup(AssignedDemandIds(db.assignments, resourceId, statuses))
    && forall d :: d in r.values ==> r.values[d] == LoadDemand(db, d)
  }

  /** The table `getLinkedEntities` computes: one key per grouping, in first-occurrence order. */
  ghost predicate IsLinkedEntityTable(db: Database, r: PhpArray<string, Option<string>>)
  {
    && r.Valid()
    && r.keys == Dedup(db.resourceTypeGroupings)
    && forall t :: t in r.values ==> r.values[t] == EntityNameForTable(db, t)
  }

  class Resource {
    const id: int
    const entityTable: string
    const entityId: int
    /** The instance-local cache of the linked host record; None is PHP's null. */
    var entity: Option<LinkedEntity>

    /** A resource object loaded by `find(true)` from its row. */
    constructor (id: int, row: ResourceRow)
      ensures this.id == id && entityTable == row.entityTable && entityId == row.entityId
      ensures entity == None
    {
      this.id := id;
      entityTable := row.entityTable;
      entityId := row.entityId;
      entity := None;
    }

    /** `getAssignedDemands($assignment_status)`. */
    method GetAssignedDemands(db: Database, arg: StatusArg) returns (r: Result<PhpArray<int, Demand>, Error>)
      ensures r.Err? <==> NormaliseStatuses(arg) == []
      ensures r.Err? ==> r.error == MalformedStatusList
      ensures r.Ok? ==> IsAssignedDemands(db, id, NormaliseStatuses(arg), r.value)
    {
      var statuses := NormaliseStatuses(arg);
      var text := CommaList(statuses);
      CommaListEmpty(statuses);
      var query := QueryAssignedDemandIds(db, id, text);
      if query.Err? {
        return Err(query.error);
      }
      ReadCommaListOfCommaList(statuses);
      var ids := query.value;
      assert ids == AssignedDemandIds(db.assignments, id, statuses);
      var results: PhpArray<int, Demand> := Empty();
      var i := 0;
      while i < |ids|
        invariant 0 <= i <= |ids|
        invariant results.Valid()
        invariant results.keys == Dedup(ids[..i])
        invariant forall d :: d in results.values ==> results.values[d] == LoadDemand(db, d)
      {
        var demand := LoadDemand(db, ids[i]);
        assert ids[..i + 1][..i] == ids[..i];
        results := results.Put(demand.id, demand);
        i := i + 1;
      }
      assert ids[..i] == ids;
      return Ok(results);
    }

    /**
     * `getEntity($cached)`: a cached host record is returned as it is; otherwise the
     * cache is cleared and the record looked up again, and a failed lookup leaves it cleared.
     */
    method GetEntity(db: Database, cached: bool) returns (r: Result<LinkedEntity, Error>)
      modifies this
      ensures cached && old(entity).Some? ==> r == Ok(old(entity).value) && entity == old(entity)
      ensures !(cached && old(entity).Some?) ==>
        && r == FindLinkedEntity(db, entityTable, entityId, id)
        && entity == (if r.Ok? then Some(r.value) else None)
    {
      if entity.None? || !cached {
        entity := None;
        var found := FindLinkedEntity(db, entityTable, entityId, id);
        if found.Err? {
          return Err(found.error);
        }
        entity := Some(found.value);
      }
      return Ok(entity.value);
    }

    /**
     * `getUnavailabilities()`: the implementation object of every unavailability row of
     * this resource, in fetch order; `implementation` stands for `getImplementation(false)`.
     */
    method GetUnavailabilities<U>(db: Database, implementation: UnavailabilityRow -> U) returns (r: seq<U>)
      ensures var rows := UnavailabilityRowsOf(db.unavailabilities, id);
        |r| == |rows| && forall i :: 0 <= i < |r| ==> r[i] == implementation(rows[i])
    {
      var all := db.unavailabilities;
      r := [];
      var i := 0;
      while i < |all|
        invariant 0 <= i <= |all|
        invariant var rows := UnavailabilityRowsOf(all[..i], id);
          |r| == |rows| && forall k :: 0 <= k < |r| ==> r[k] == implementation(rows[k])
      {
        assert all[..i + 1][..i] == all[..i];
        if all[i].resourceId == id {
          r := r + [implementation(all[i])];
        }
        i := i + 1;
      }
      assert all[..i] == all;
    }
  }

  /** The function-static `$resources` of `getInstance`: resource objects by id. */
  class InstanceCache {
    var resources: map<int, Resource>

    /** Every cached resource is stored under its own id. */
    ghost predicate Valid()
      reads this
    {
      forall k :: k in resources ==> resources[k].id == k
    }

    constructor ()
      ensures Valid() && resources == map[]
    {
      resources := map[];
    }

    /**
     * `getInstance($id, $cached)`: the id is cast to an integer; a cached resource is
     * returned unless `cached` is false; otherwise the resource is loaded and cached,
     * and a missing record raises before the cache is touched.
     */
    method GetInstance(db: Database, id: PhpValue, cached: bool) returns (r: Result<Resource, Error>)
      requires Valid()
      modifies this
      ensures Valid()
      ensures var k := IntVal(id);
        if cached && k in old(resources) then
          r == Ok(old(resources)[k]) && resources == old(resources)
        else if k in db.resources then
          && r.Ok? && fresh(r.value)
          && r.value.id == k
          && r.value.entityTable == db.resources[k].entityTable
          && r.value.entityId == db.resources[k].entityId
          && r.value.entity == None
          && resources == old(resources)[k := r.value]
        else
          r == Err(ResourceNotFound(k)) && resources == old(resources)
    {
      var k := IntVal(id);
      if k !in resources || !cached {
        if k !in db.resources {
          return Err(ResourceNotFound(k));
        }
        var resource := new Resource(k, db.resources[k]);
        resources := resources[k := resource];
      }
      return Ok(resources[k]);
    }
  }

  /**
   * Looking a resource up by its integer id and then by the decimal string of that id
   * reaches the same cache entry: the second call returns the very object of the first,
   * whatever the store holds by then, so its cached linked entity is shared too.
   */
  method LookUpTwice(cache: InstanceCache, db: Database, later: Database, id: int)
      returns (first: Result<Resource, Error>, second: Result<Resource, Error>)
    requires cache.Valid()
    modifies cache
    ensures cache.Valid()
    ensures first.Ok? ==> second == first
    ensures first.Err? ==> first == Err(ResourceNotFound(id)) && id !in db.resources
  {
    first := cache.GetInstance(db, PInt(id), true);
    LeadingIntOfDecimalString(id);
    second := cache.GetInstance(later, PString(DecimalString(id)), true);
  }

  /** The function-static `$linked_entities` of `getLinkedEntities`; None until it is computed. */
  class LinkedEntityCache {
    var linkedEntities: Option<PhpArray<string, Option<string>>>

    ghost predicate Valid()
      reads this
    {
      linkedEntities.Some? ==> linkedEntities.value.Valid()
    }

    constructor ()
      ensures Valid() && linkedEntities == None
    {
      linkedEntities := None;
    }

    /**
     * `getLinkedEntities()`: on the first call, every grouping of the resource types
     * becomes a key mapped to the entity name of that table; later calls return that table.
     */
    method GetLinkedEntities(db: Database) returns (r: PhpArray<string, Option<string>>)
      requires Valid()
      modifies this
      ensures Valid() && linkedEntities == Some(r)
      ensures old(linkedEntities).Some? ==> r == old(linkedEntities).value
      ensures old(linkedEntities).None? ==> IsLinkedEntityTable(db, r)
    {
      if linkedEntities.None? {
        var groupings := db.resourceTypeGroupings;
        var table: PhpArray<string, Option<string>> := Empty();
        var i := 0;
        while i < |groupings|
          invariant 0 <= i <= |groupings|
          invariant table.Valid()
          invariant table.keys == Dedup(groupings[..i])
          invariant forall t :: t in table.values ==> table.values[t] == EntityNameForTable(db, t)
        {
          assert groupings[..i + 1][..i] == groupings[..i];
          table := table.Put(groupings[i], EntityNameForTable(db, groupings[i]));
          i := i + 1;
        }
        assert groupings[..i] == groupings;
        linkedEntities := Some(table);
      }
      return linkedEntities.value;
    }
  }

  /** Passing one status is the same as passing the one-element array holding it. */
  lemma OneStatusAsList(v: PhpValue)
    ensures NormaliseStatuses(OneStatus(v)) == NormaliseStatuses(StatusList([v]))
  {
  }

  /** By default only confirmed assignments are considered. */
  lemma DefaultStatusesAreConfirmed()
    ensures NormaliseStatuses(DefaultStatusArg()) == [STATUS_CONFIRMED]
  {
  }

  /**
   * The keys of the assigned-demand array are exactly the demand ids of the assignments
   * of the resource with a listed status, each once, in the order of their first assignment.
   */
  lemma AssignedDemandKeys(db: Database, resourceId: int, statuses: seq<int>, r: PhpArray<int, Demand>, d: int)
    requires IsAssignedDemands(db, resourceId, statuses, r)
    ensures d in r.values <==>
      exists a :: a in db.assignments && a.resourceId == resourceId && a.status in statuses && a.demandId == d
    ensures Distinct(r.keys)
  {
    AssignedDemandIdsMembers(db.assignments, resourceId, statuses, d);
  }

  /** Two demands keep the order in which their first matching assignments come. */
  lemma AssignedDemandOrder(db: Database, resourceId: int, statuses: seq<int>, r: PhpArray<int, Demand>, i: nat, j: nat)
    requires IsAssignedDemands(db, resourceId, statuses, r)
    requires i < j < |r.keys|
    ensures var ids := AssignedDemandIds(db.assignments, resourceId, statuses);
      r.keys[i] in ids && r.keys[j] in ids && FirstIndex(ids, r.keys[i]) < FirstIndex(ids, r.keys[j])
  {
    DedupFirstOccurrenceOrder(AssignedDemandIds(db.assignments, resourceId, statuses), i, j);
  }

  /** Every grouping is a key of the linked-entity table, mapped to its table's entity name. */
  lemma LinkedEntityTableKeys(db: Database, r: PhpArray<string, Option<string>>, t: string)
    requires IsLinkedEntityTable(db, r)
    ensures t in r.values <==> t in db.resourceTypeGroupings
    ensures t in r.values ==> r.values[t] == EntityNameForTable(db, t)
  {
  }
}
