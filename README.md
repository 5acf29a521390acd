# Resource BAO model

A Dafny model of `CRM_Resource_BAO_Resource`, the business object of the SYSTOPIA
resource framework for CiviCRM. A resource (a room, a vehicle, a person) is linked to a
host record by `entity_table` and `entity_id`, is assigned to resource demands through
assignments with a status, and carries unavailability records. The model covers the five
operations of that class that hold logic:

- `getInstance`: the process-wide cache of resource objects by id, with a bypass flag;
- `getAssignedDemands`: the status argument normalised to a list of integers, the
  assignment query, and the array of demands keyed by demand id;
- `getLinkedEntities`: the table of linkable entity types, computed once per process;
- `getEntity`: the instance-local cache of the linked host record, with a bypass flag;
- `getUnavailabilities`: the unavailability objects of the resource, in fetch order.

The database is an immutable snapshot, `Store.Database`, passed to every operation: the
resource rows by id, the assignment rows, the demand records, the unavailability rows, the
groupings of the options of the `resource_types` option group, and the core-table registry
(table name to entity name and records). The DAO `find` calls and the two SQL queries are
functions over that snapshot. PHP arrays used as dictionaries are `PhpArrays.PhpArray`: a key
order plus a value per key. `$a[$k] = $v` keeps the position of a key already present and
appends a new one, so the key order of an array built by such writes is `Dedup` of the keys
written: first occurrences, in order. The two function-static variables become objects of
the classes `InstanceCache` and `LinkedEntityCache`. The `$entity` property becomes the
`entity` field of `Resource`. Exceptions become `Err` results.

Modules: `Wrappers` (Option, Result), `PhpValues` (`(int)`/`intval`, decimal text,
`implode`/`explode` on commas), `PhpArrays` (ordered arrays, `Dedup`), `Store` (the database
snapshot and its lookups), `ResourceBao` (the class itself and its two caches).

Details of the code the model keeps:
- `getAssignedDemands` returns an array keyed by demand id. A demand whose record is missing
  still appears, as an object with only its id set: the result of `find(true)` is not checked
  (CRM/Resource/BAO/Resource.php:105-108).
- The resource cache is refreshed only by a call with `cached = false`; nothing else removes
  or replaces an entry (CRM/Resource/BAO/Resource.php:61-67).
- `getEntity` can fail in two ways. The host record may be missing. The table may also have no
  registered class, and then instantiating the class name `null` fails. Both failures leave
  the cached entity cleared (CRM/Resource/BAO/Resource.php:181-190).
- `isAvailable` only forwards to another class (CRM/Resource/BAO/Resource.php:207-210); see Left out.

## Model

| member | source | states |
|---|---|---|
| `PhpValues.IntVals` | CRM/Resource/BAO/Resource.php:87 | `array_map('intval', ...)` keeps the length, and converts each entry with PHP's integer conversion |
| `PhpValues.LeadingIntOfDecimalString` | CRM/Resource/BAO/Resource.php:59 | the integer conversion of an integer's decimal text gives back that integer, so `(int) "12"` and `(int) 12` select the same cache entry |
| `PhpValues.CommaListEmpty` | CRM/Resource/BAO/Resource.php:88 | the comma-joined status text is empty exactly when the status list is empty |
| `PhpValues.ReadCommaListOfCommaList` | CRM/Resource/BAO/Resource.php:88-98 | for a non-empty list, the comma-joined text handed to `IN (%2)` reads back as exactly that list of integers |
| `PhpArrays.PhpArray.Put` | CRM/Resource/BAO/Resource.php:108 | an array write keeps the array well formed: keys distinct, and the key order holds exactly the keys with a value |
| `PhpArrays.Empty` | CRM/Resource/BAO/Resource.php:102 | a new array `[]` is well formed and has no keys |
| `PhpArrays.Dedup` | CRM/Resource/BAO/Resource.php:103-109 | the keys written, without repeats: distinct, and holding exactly the elements of the input |
| `PhpArrays.DedupFirstOccurrenceOrder` | CRM/Resource/BAO/Resource.php:103-109 | a key placed before another was first written before it |
| `Store.AssignedDemandIdsMembers` | CRM/Resource/BAO/Resource.php:91-100 | a demand id is returned by the assignment query exactly when some assignment row has this resource, a listed status and that demand |
| `Store.UnavailabilityRowsOfMembers` | CRM/Resource/BAO/Resource.php:222-226 | a row is selected exactly when it is an unavailability row whose `resource_id` is this resource |
| `Store.UnavailabilityRowsOfAppend` | CRM/Resource/BAO/Resource.php:225-226 | selection keeps fetch order: the rows of a concatenation are the rows of each part, in order |
| `Store.UnavailabilityRowsOfEmpty` | CRM/Resource/BAO/Resource.php:219-229 | nothing is selected exactly when no row belongs to this resource |
| `Store.FindLinkedEntity` | CRM/Resource/BAO/Resource.php:182-190 | the host record is found exactly when its table has a registered class and the record exists, and then it is that table's record with that id and its contents; a table without a registered class fails as an unknown class, and a registered table without the record raises "does not exist" |
| `ResourceBao.NormaliseStatuses` | CRM/Resource/BAO/Resource.php:82-87 | one status becomes the one-element list of its integer; a list becomes the list of its entries' integers |
| `ResourceBao.OneStatusAsList` | CRM/Resource/BAO/Resource.php:82-84 | passing one status is the same as passing the one-element array holding it |
| `ResourceBao.DefaultStatusesAreConfirmed` | CRM/Resource/BAO/Resource.php:80 | the default is the list holding only the confirmed status |
| `ResourceBao.Resource.constructor` | CRM/Resource/BAO/Resource.php:62-64 | a loaded resource has the id it was looked up by, the link of its row, and no cached entity |
| `ResourceBao.Resource.GetAssignedDemands` | CRM/Resource/BAO/Resource.php:80-112 | fails exactly for an empty status list; otherwise the keys are the demand ids of this resource's matching assignments without repeats, in first-assignment order, each mapped to its demand as loaded, found or not |
| `ResourceBao.AssignedDemandKeys` | CRM/Resource/BAO/Resource.php:91-109 | a demand id is a key exactly when an assignment of this resource with a listed status references it, and each key occurs once |
| `ResourceBao.AssignedDemandOrder` | CRM/Resource/BAO/Resource.php:103-108 | of two keys, the earlier one's first matching assignment row comes earlier in the query result |
| `ResourceBao.Resource.GetEntity` | CRM/Resource/BAO/Resource.php:178-193 | with `cached` and a cached record, returns it and changes nothing without a lookup; otherwise returns the lookup's result, caching the record on success and leaving the cache cleared on failure |
| `ResourceBao.Resource.GetUnavailabilities` | CRM/Resource/BAO/Resource.php:217-230 | one element per unavailability row of this resource, in fetch order, each the implementation of its row; empty when there is no such row |
| `ResourceBao.InstanceCache.constructor` | CRM/Resource/BAO/Resource.php:60 | the cache starts empty |
| `ResourceBao.InstanceCache.GetInstance` | CRM/Resource/BAO/Resource.php:57-70 | a cached id with `cached` returns the cached object without reading the store; otherwise a stored record gives a fresh object, stored under the id with every other entry unchanged; a missing record raises not-found and leaves the whole cache, including an old entry for that id, as it was; every entry is stored under its own id |
| `ResourceBao.LookUpTwice` | CRM/Resource/BAO/Resource.php:59-69 | after a successful lookup, a second cached lookup by the decimal string of the id returns the same object whatever the store holds by then |
| `ResourceBao.LinkedEntityCache.constructor` | CRM/Resource/BAO/Resource.php:151 | the table starts as not yet computed |
| `ResourceBao.LinkedEntityCache.GetLinkedEntities` | CRM/Resource/BAO/Resource.php:149-171 | the first call computes the table and stores it; every later call returns the stored table without reading the store |
| `ResourceBao.LinkedEntityTableKeys` | CRM/Resource/BAO/Resource.php:165-168 | a table name is a key exactly when it is the grouping of some resource type, and it maps to that table's entity name, or to null when the table is unknown |

## Left out

- `create` (CRM/Resource/BAO/Resource.php:30-46): it copies the parameters, saves the record and calls the pre and post hooks. This is persistence and hook dispatch, with no logic of its own.
- `add_resource_links` and `buildOptions` (CRM/Resource/BAO/Resource.php:123-136): these only register a framework reference and delegate option lists to `getLinkedEntities`.
- `isAvailable` (CRM/Resource/BAO/Resource.php:207-210): it only forwards to `CRM_Resource_BAO_ResourceUnavailability::isResourceAvailable`. No shown file defines that method: the class in CRM/Resource/BAO/ResourceUnavailability.php holds only a commented-out `create`. So there is no overlap rule to model, and the model does not invent one.
- CRM/Resource/BAO/ResourceUnavailability.php has no live code. js/resource_demands_view.js is user-interface wiring (a delete confirmation, an API call, a refresh).
- SQL execution, DAO `find`/`fetch` and dynamic class instantiation are the functions of `Store` over a database snapshot. Row order is the snapshot's order, since neither query has an `ORDER BY`.
- `getImplementation(false)` is a foreign call: `GetUnavailabilities` takes it as the function parameter `implementation`.
- `ResourceBao.STATUS_CONFIRMED`: its value is defined in CRM_Resource_BAO_ResourceAssignment, which is not part of this model. It is an uninterpreted constant.
- `PhpValues.IntVals`: PHP's string-to-integer conversion is modelled for whitespace, a sign and digits. Exponent and fraction notation (`"1e3"`, `"2.5"`), floats and 64-bit saturation are not modelled. Integers are unbounded.
- `ResourceBao.Resource.GetAssignedDemands`: the empty status text is rejected as a `CommaSeparatedIntegers` query parameter, and the model returns that failure. The rest of the query layer's validation of that parameter is not part of this model, so a negative status is not rejected.
- `ResourceBao.Resource.GetEntity`: the record's `entity_id` is an integer. A null `entity_id` would make `find(true)` search without a condition; that case is not modelled.
- `ResourceBao.LinkedEntityCache.GetLinkedEntities`: the static is set to `[]` before the query runs (CRM/Resource/BAO/Resource.php:153-164), so a query that throws would leave an empty or partial table that every later call returns. The model's queries cannot fail, so this case is not modelled.
- `ResourceBao.LinkedEntityCache.GetLinkedEntities`: a NULL `grouping` and a numeric table name are not modelled. PHP would turn those into the key `""` and an integer key.
- Resource objects are loaded with their link (`entity_table`, `entity_id`) only. Other columns are not read by this code and are not modelled.
- Concurrency: PHP runs one request per process, and the statics live for that process. The model has no concurrency.
