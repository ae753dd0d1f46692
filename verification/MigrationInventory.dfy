/**
 The content-free evidence a migration compares, and the two comparisons that
 must succeed before a destination may be promoted.
 */
module MigrationInventory {

  type Digest(==, !new, 0) = nat

  /** Relative path to size-and-hash evidence. */
  type Tree = map<string, Digest>

  datatype SecurityObject = SecurityObject(name: string, grants: Digest)

  datatype Security = Security(roles: Digest, objects: seq<SecurityObject>)

  datatype Database = Database(heads: seq<string>, tables: map<string, nat>, security: Security)

  datatype Inventory = Inventory(database: Database, attachments: Tree, releases: Tree)

  datatype Direction = Forward | Rollback

  const QUEUE_TABLE := "ai_work_queue"

  /** The security evidence without one named object, in its original order. */
  function WithoutObject(objects: seq<SecurityObject>, name: string): seq<SecurityObject> {
    if objects == [] then []
    else if objects[0].name == name then WithoutObject(objects[1..], name)
    else [objects[0]] + WithoutObject(objects[1..], name)
  }

  /**
   What the reviewed 0031 to 0032 transition may change: the schema head, one new
   empty table, and that table's security objects. Nothing else.
   */
  ghost predicate ForwardImage(source: Inventory, destination: Inventory) {
    && destination.attachments == source.attachments
    && destination.releases == source.releases
    && source.database.heads == ["0031"]
    && destination.database.heads == ["0032"]
    && QUEUE_TABLE !in source.database.tables
    && destination.database.tables == source.database.tables[QUEUE_TABLE := 0]
    && source.database.security.roles == destination.database.security.roles
    && source.database.security.objects
       == WithoutObject(destination.database.security.objects, QUEUE_TABLE)
  }

  ghost predicate Image(direction: Direction, source: Inventory, destination: Inventory) {
    match direction
    case Forward => ForwardImage(source, destination)
    case Rollback => destination == source
  }

  /** The two inventories are equal, or the transfer is refused. */
  method AssertMatching(source: Inventory, destination: Inventory) returns (ok: bool)
    ensures ok <==> source == destination
  {
    if source != destination {
      return false;
    }
    return true;
  }

  /** The reviewed schema, with nothing yet named after the queue. */
  predicate Upgradable(source: Inventory) {
    && source.database.heads == ["0031"] && "ai_work_queue" !in source.database.tables
    && forall i :: 0 <= i < |source.database.security.objects| ==>
         source.database.security.objects[i].name != "ai_work_queue"
  }

  /** What an ordinary upgrade makes of a source. */
  function Upgraded(source: Inventory): Inventory {
    source.(database := Database(["0032"], source.database.tables["ai_work_queue" := 0], source.database.security))
  }

  /** An ordinary upgrade is accepted, also with security objects of the new table anywhere among the others. */
  lemma UpgradeIsAnImage(source: Inventory, before: seq<SecurityObject>, added: SecurityObject, after: seq<SecurityObject>)
    requires Upgradable(source) && source.database.security.objects == before + after
    requires added.name == "ai_work_queue"
    ensures Image(Forward, source, Upgraded(source))
    ensures Image(Forward, source,
                  Inventory(Database(["0032"], source.database.tables["ai_work_queue" := 0],
                                     Security(source.database.security.roles, before + [added] + after)),
                            source.attachments, source.releases))
  {
    NothingToRemove(before + after, QUEUE_TABLE);
    WithoutOne(before, added, after);
  }

  lemma {:induction false} WithoutOne(before: seq<SecurityObject>, added: SecurityObject, after: seq<SecurityObject>)
    ensures WithoutObject(before + [added] + after, added.name) == WithoutObject(before + after, added.name)
  {
    if before == [] {
      assert ([] + [added] + after)[1..] == after && [] + after == after;
    } else {
      var (first, rest) := (before[0], before[1..]);
      assert before + [added] + after == [first] + (rest + [added] + after) && before + after == [first] + (rest + after);
      WithoutOne(rest, added, after);
    }
  }

  /** Accept a destination exactly when it is an image of the source in this direction. */
  method AssertDestinationMatching(source: Inventory, destination: Inventory, direction: Direction)
    returns (ok: bool)
    ensures ok <==> Image(direction, source, destination)
    ensures direction == Forward && Upgradable(source) && destination == Upgraded(source) ==> ok
    ensures direction == Forward && ok ==>
              source.database.heads == ["0031"] && destination.database.heads == ["0032"]
  {
    if direction == Rollback {
      ok := AssertMatching(source, destination);
      return;
    }
    if Upgradable(source) { NothingToRemove(source.database.security.objects, QUEUE_TABLE); }
    if source.attachments != destination.attachments || source.releases != destination.releases {
      return false;
    }
    var sourceDatabase, destinationDatabase := source.database, destination.database;
    if sourceDatabase.heads != ["0031"] || destinationDatabase.heads != ["0032"] {
      return false;
    }
    if sourceDatabase.security.roles != destinationDatabase.security.roles
       || sourceDatabase.security.objects
          != WithoutObject(destinationDatabase.security.objects, QUEUE_TABLE) {
      return false;
    }
    var destinationTables := destinationDatabase.tables;
    if QUEUE_TABLE !in destinationTables || destinationTables[QUEUE_TABLE] != 0 {
      return false;
    }
    destinationTables := destinationTables - {QUEUE_TABLE};
    if sourceDatabase.tables != destinationTables {
      return false;
    }
    assert destinationDatabase.tables == sourceDatabase.tables[QUEUE_TABLE := 0];
    return true;
  }

  /**
   The relation that survives any number of migrations: the same inventory, or its
   image under the single reviewed schema transition.
   */
  ghost predicate Descends(ancestor: Inventory, current: Inventory) {
    current == ancestor || ForwardImage(ancestor, current)
  }

  /** The transition cannot be taken twice, so descending is transitive. */
  lemma DescendsTransitive(a: Inventory, b: Inventory, c: Inventory)
    requires Descends(a, b) && Descends(b, c)
    ensures Descends(a, c)
  {
  }

  /** Forward then rollback with no write between returns everything, plus one empty table. */
  lemma ForwardThenRollback(original: Inventory, moved: Inventory, returned: Inventory)
    requires Image(Forward, original, moved) && Image(Rollback, moved, returned)
    ensures returned.attachments == original.attachments
    ensures returned.releases == original.releases
    ensures original.database.heads == ["0031"] && returned.database.heads == ["0032"]
    ensures returned.database.tables.Keys == original.database.tables.Keys + {"ai_work_queue"}
    ensures forall name :: name in original.database.tables ==>
              name in returned.database.tables
              && returned.database.tables[name] == original.database.tables[name]
    ensures "ai_work_queue" !in original.database.tables && returned.database.tables["ai_work_queue"] == 0
    ensures returned.database.security.roles == original.database.security.roles
    ensures forall item :: item in original.database.security.objects <==>
              item in returned.database.security.objects && item.name != "ai_work_queue"
  {
    WithoutObjectKeeps(moved.database.security.objects, QUEUE_TABLE);
  }

  /** One accepted image has one source: if the data changed after it was read, no image of it is one of the data. */
  lemma ImageDeterminesSource(direction: Direction, read: Inventory, data: Inventory, image: Inventory)
    requires Image(direction, read, image)
    ensures Image(direction, data, image) <==> data == read
  {
    if direction == Forward && ForwardImage(data, image) {
      assert read.database.tables == image.database.tables - {QUEUE_TABLE} == data.database.tables;
    }
  }

  lemma {:induction false} NothingToRemove(objects: seq<SecurityObject>, name: string)
    requires forall i :: 0 <= i < |objects| ==> objects[i].name != name
    ensures WithoutObject(objects, name) == objects
  {
    if objects != [] { NothingToRemove(objects[1..], name); }
  }

  /** A source has an acceptable image in the forward direction exactly when it is upgradable, and always a rollback. */
  lemma UpgradableMeansImage(direction: Direction, source: Inventory)
    ensures (exists image :: Image(direction, source, image)) <==> direction == Rollback || Upgradable(source)
  {
    var objects := source.database.security.objects;
    if direction == Rollback {
      assert Image(direction, source, source);
    } else if Upgradable(source) {
      NothingToRemove(objects, QUEUE_TABLE);
      assert Image(direction, source, Upgraded(source));
    } else {
      forall image: Inventory ensures !Image(direction, source, image) {
        if Image(direction, source, image) {
          WithoutObjectKeeps(image.database.security.objects, QUEUE_TABLE);
          forall i | 0 <= i < |objects| ensures objects[i].name != QUEUE_TABLE {
            assert objects[i] in objects;
          }
        }
      }
    }
  }

  lemma {:induction false} WithoutObjectKeeps(objects: seq<SecurityObject>, name: string)
    ensures forall item :: item in WithoutObject(objects, name) <==> item in objects && item.name != name
  {
    if objects != [] {
      WithoutObjectKeeps(objects[1..], name);
      assert objects == [objects[0]] + objects[1..];
    }
  }
}
