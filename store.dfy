/**
 * The database as the resource code sees it: a snapshot of the tables it reads,
 * and the lookups the data-access layer performs on them (`find`, the two SQL
 * queries, and the core-table registry that maps a table name to its entity).
 */
module Store {
  import opened Wrappers
  import opened PhpValues

  /** Columns of a record that the resource code passes through without reading. */
  type Row = map<string, string>

  /** A row of civicrm_resource: the host record the resource is linked to. */
  datatype ResourceRow = ResourceRow(entityTable: string, entityId: int)

  /** A row of civicrm_resource_assignment. */
  datatype AssignmentRow = AssignmentRow(resourceId: int, demandId: int, status: int)

  /** A row of civicrm_resource_unavailability. */
  datatype UnavailabilityRow = UnavailabilityRow(id: int, resourceId: int, fields: Row)

  /** A table known to the core-table registry: its entity name and its records by id. */
  datatype CoreTable = CoreTable(entityName: string, records: map<int, Row>)

  datatype Database = Database(
    resources: map<int, ResourceRow>,
    assignments: seq<AssignmentRow>,          // in the order the query returns them
    demands: map<int, Row>,
    unavailabilities: seq<UnavailabilityRow>, // in the order `fetch` returns them
    resourceTypeGroupings: seq<string>,       // `grouping` of each option of the group 'resource_types'
    coreTables: map<string, CoreTable>)

  /** A demand object after `find(true)`: its id, and its record if there was one. */
  datatype Demand = Demand(id: int, loaded: Option<Row>)

  /** The host record a resource is linked to, loaded from its table. */
  datatype LinkedEntity = LinkedEntity(table: string, id: int, fields: Row)

  datatype Error =
    | ResourceNotFound(id: int)            // "CRM_Resource_BAO_Resource [id] not found."
    | MalformedStatusList                  // the empty status text is rejected as a query parameter
    | EntityClassUnknown(table: string)    // no class is registered for the entity table
    | LinkedEntityMissing(resourceId: int) // "Entity linked to resource [id] does not exist."

  /** A demand object whose id is set and on which `find(true)` was called, found or not. */
  function LoadDemand(db: Database, id: int): Demand
  {
    Demand(id, if id in db.demands then Some(db.demands[id]) else None)
  }

  /**
   * The `demand_id` of every assignment row with the given resource and a status in
   * the list, in row order, repeats included.
   */
  function AssignedDemandIds(rows: seq<AssignmentRow>, resourceId: int, statuses: seq<int>): seq<int>
  {
    if rows == [] then []
    else
      var last := rows[|rows| - 1];
      AssignedDemandIds(rows[..|rows| - 1], resourceId, statuses)
        + (if last.resourceId == resourceId && last.status in statuses then [last.demandId] else [])
  }

  /** The demand ids are exactly those of the matching assignment rows. */
  lemma {:induction false} AssignedDemandIdsMembers(rows: seq<AssignmentRow>, resourceId: int, statuses: seq<int>, d: int)
    ensures d in AssignedDemandIds(rows, resourceId, statuses)
        <==> exists a :: a in rows && a.resourceId == resourceId && a.status in statuses && a.demandId == d
  {
    if rows != [] {
      var prefix := rows[..|rows| - 1];
      AssignedDemandIdsMembers(prefix, resourceId, statuses, d);
      assert rows == prefix + [rows[|rows| - 1]];
    }
  }

  /**
   * `SELECT demand_id FROM civicrm_resource_assignment WHERE resource_id = %1 AND status IN (%2)`
   * with the status list given as comma-separated text; the empty text is rejected as a parameter.
   */
  function QueryAssignedDemandIds(db: Database, resourceId: int, statusText: string): Result<seq<int>, Error>
  {
    if statusText == "" then Err(MalformedStatusList)
    else Ok(AssignedDemandIds(db.assignments, resourceId, ReadCommaList(statusText)))
  }

  /** The unavailability rows whose `resource_id` is the given one, in fetch order. */
  function UnavailabilityRowsOf(rows: seq<UnavailabilityRow>, resourceId: int): seq<UnavailabilityRow>
  {
    if rows == [] then []
    else
      var last := rows[|rows| - 1];
      UnavailabilityRowsOf(rows[..|rows| - 1], resourceId) + (if last.resourceId == resourceId then [last] else [])
  }

  lemma {:induction false} UnavailabilityRowsOfMembers(rows: seq<UnavailabilityRow>, resourceId: int, u: UnavailabilityRow)
    ensures u in UnavailabilityRowsOf(rows, resourceId) <==> u in rows && u.resourceId == resourceId
  {
    if rows != [] {
      var prefix := rows[..|rows| - 1];
      UnavailabilityRowsOfMembers(prefix, resourceId, u);
      assert rows == prefix + [rows[|rows| - 1]];
    }
  }

  /** Selecting the rows of a resource keeps fetch order: it distributes over concatenation. */
  lemma {:induction false} UnavailabilityRowsOfAppend(a: seq<UnavailabilityRow>, b: seq<UnavailabilityRow>, resourceId: int)
    ensures UnavailabilityRowsOf(a + b, resourceId) == UnavailabilityRowsOf(a, resourceId) + UnavailabilityRowsOf(b, resourceId)
  {
    if b != [] {
      var b' := b[..|b| - 1];
      assert (a + b)[..|a + b| - 1] == a + b';
      UnavailabilityRowsOfAppend(a, b', resourceId);
    } else {
      assert a + b == a;
    }
  }

  /** No row of the resource, no unavailability: the result is empty exactly then. */
  lemma UnavailabilityRowsOfEmpty(rows: seq<UnavailabilityRow>, resourceId: int)
    ensures UnavailabilityRowsOf(rows, resourceId) == []
        <==> forall i :: 0 <= i < |rows| ==> rows[i].resourceId != resourceId
  {
    var r := UnavailabilityRowsOf(rows, resourceId);
    if r == [] {
      forall i | 0 <= i < |rows| ensures rows[i].resourceId != resourceId {
        UnavailabilityRowsOfMembers(rows, resourceId, rows[i]);
      }
    } else {
      UnavailabilityRowsOfMembers(rows, resourceId, r[0]);
    }
  }

  /** `CRM_Core_DAO_AllCoreTables::getEntityNameForTable`: the entity name, or null for an unknown table. */
  function EntityNameForTable(db: Database, table: string): Option<string>
  {
    if table in db.coreTables then Some(db.coreTables[table].entityName) else None
  }

  /**
   * Instantiating the class registered for `table` and calling `find(true)` with the given
   * id: fails when no class is registered, or when the record does not exist.
   */
  function FindLinkedEntity(db: Database, table: string, entityId: int, resourceId: int): (r: Result<LinkedEntity, Error>)
    ensures r.Ok? <==> table in db.coreTables && entityId in db.coreTables[table].records
    ensures r.Ok? ==> r.value.table == table && r.value.id == entityId
    ensures r.Ok? ==> r.value.fields == db.coreTables[table].records[entityId]
    ensures table !in db.coreTables ==> r == Err(EntityClassUnknown(table))
    ensures r.Err? && table in db.coreTables ==> r.error == LinkedEntityMissing(resourceId)
  {
    if table !in db.coreTables then Err(EntityClassUnknown(table))
    else if entityId !in db.coreTables[table].records then Err(LinkedEntityMissing(resourceId))
    else Ok(LinkedEntity(table, entityId, db.coreTables[table].records[entityId]))
  }
}
