/**
 * The project registry kept in `src/lib/db.ts`: a lazily loaded, process-wide
 * database handle and a `projects` table with auto-increment ids, changed in
 * place by INSERT and DELETE and listed newest first.
 */
module ProjectRegistry {
  import opened Wrappers

  /** An abstract value of the engine's CURRENT_TIMESTAMP; larger is later. */
  type Timestamp = int

  /** One row of the `projects` table. */
  datatype Project = Project(
    id: int,
    name: string,
    path: string,
    lastOpened: Option<Timestamp>,
    createdAt: Timestamp)

  predicate IsSeparator(c: char) {
    c == '/' || c == '\\'
  }

  predicate EndsWithSeparator(s: string) {
    |s| > 0 && IsSeparator(s[|s| - 1])
  }

  /**
   * The stored full path of a project created under the parent folder `path`.
   * The folder comes first and the name last. The join adds at most one
   * character, always '/' and never '\', and only when the folder does not
   * already end in '/' or '\'; so the character just before the name is a
   * separator (a folder ending in several separators keeps them all).
   */
  function FullPath(path: string, name: string): (r: string)
    ensures |r| == |path| + |name| + (if EndsWithSeparator(path) then 0 else 1)
    ensures r[..|path|] == path
    ensures r[|r| - |name|..] == name
    ensures |r| > |name| && IsSeparator(r[|r| - |name| - 1])
    ensures !EndsWithSeparator(path) ==> r[|path|] == '/'
  {
    if EndsWithSeparator(path) then path + name else path + "/" + name
  }

  /** Ids strictly increase along the table, so no id occurs twice. */
  ghost predicate IdsIncreasing(rows: seq<Project>) {
    forall i, j :: 0 <= i < j < |rows| ==> rows[i].id < rows[j].id
  }

  /** Rows are kept in insertion order, so their creation times never decrease. */
  ghost predicate Chronological(rows: seq<Project>) {
    forall i, j :: 0 <= i < j < |rows| ==> rows[i].createdAt <= rows[j].createdAt
  }

  /** Ordered as `ORDER BY created_at DESC` promises: creation times never increase. */
  ghost predicate NewestFirstOrder(rows: seq<Project>) {
    forall i, j :: 0 <= i < j < |rows| ==> rows[i].createdAt >= rows[j].createdAt
  }

  /** The table invariant: ids below the AUTOINCREMENT counter, ordered, and no row from the future. */
  ghost predicate TableInvariant(rows: seq<Project>, nextId: int, clock: Timestamp) {
    && 1 <= nextId
    && (forall i :: 0 <= i < |rows| ==> 1 <= rows[i].id < nextId && rows[i].createdAt <= clock)
    && IdsIncreasing(rows)
    && Chronological(rows)
  }

  /** The rows in the opposite order. */
  function Reverse(rows: seq<Project>): (r: seq<Project>)
    ensures |r| == |rows|
    ensures forall i :: 0 <= i < |rows| ==> r[i] == rows[|rows| - 1 - i]
    ensures multiset(r) == multiset(rows)
  {
    if rows == [] then []
    else
      assert rows == [rows[0]] + rows[1..];
      Reverse(rows[1..]) + [rows[0]]
  }

  /**
   * The result of `SELECT * FROM projects ORDER BY created_at DESC` over a
   * table kept in insertion order: every row exactly once, newest first.
   * Among equal creation times the engine may return any order; this one
   * returns the later insertion first.
   */
  function NewestFirst(rows: seq<Project>): (r: seq<Project>)
    requires Chronological(rows)
    ensures multiset(r) == multiset(rows)
    ensures NewestFirstOrder(r)
  {
    Reverse(rows)
  }

  /** `DELETE FROM projects WHERE id = $1`: the other rows, in their order. */
  function Without(rows: seq<Project>, id: int): (r: seq<Project>)
    ensures forall p :: p in r <==> p in rows && p.id != id
    ensures |r| <= |rows|
    ensures IdsIncreasing(rows) ==> IdsIncreasing(r)
  {
    if rows == [] then []
    else if rows[0].id == id then Without(rows[1..], id)
    else
      var rest := Without(rows[1..], id);
      assert forall p :: p in rest ==> p in rows[1..];
      [rows[0]] + rest
  }

  /** Deleting an id that no row carries leaves the table as it was. */
  lemma {:induction false} WithoutAbsentId(rows: seq<Project>, id: int)
    requires forall p :: p in rows ==> p.id != id
    ensures Without(rows, id) == rows
  {
    if rows != [] {
      assert rows[0] in rows;
      assert forall p :: p in rows[1..] ==> p in rows;
      WithoutAbsentId(rows[1..], id);
    }
  }

  /** Deleting the id of a row whose id no other row carries removes exactly that row and keeps the rest in order. */
  lemma {:induction false} WithoutSplit(before: seq<Project>, p: Project, after: seq<Project>)
    requires forall q :: q in before ==> q.id != p.id
    requires forall q :: q in after ==> q.id != p.id
    ensures Without(before + [p] + after, p.id) == before + after
  {
    var s := before + [p] + after;
    if before == [] {
      assert s == [p] + after;
      assert Without(s, p.id) == Without(after, p.id);
      WithoutAbsentId(after, p.id);
    } else {
      var head, rest := before[0], before[1..];
      assert before + after == [head] + (rest + after) by {
        assert before == [head] + rest;
      }
      assert head in before;
      assert s == [head] + (rest + [p] + after);
      assert forall q :: q in rest ==> q in before;
      WithoutSplit(rest, p, after);
      assert Without(s, p.id) == [head] + Without(rest + [p] + after, p.id);
    }
  }

  /** Deleting the id of a present row removes exactly that one row. */
  lemma WithoutPresentId(rows: seq<Project>, k: nat)
    requires k < |rows|
    requires IdsIncreasing(rows)
    ensures Without(rows, rows[k].id) == rows[..k] + rows[k + 1..]
  {
    var before, after := rows[..k], rows[k + 1..];
    assert rows == before + [rows[k]] + after;
    forall q | q in before ensures q.id != rows[k].id {
      var j :| 0 <= j < k && before[j] == q;
      assert rows[j] == q;
    }
    forall q | q in after ensures q.id != rows[k].id {
      var j :| 0 <= j < |after| && after[j] == q;
      assert rows[k + 1 + j] == q;
    }
    WithoutSplit(before, rows[k], after);
  }

  /** A row inserted with a fresh id and then deleted by that id leaves the earlier rows as they were. */
  lemma InsertThenDeleteRestores(rows: seq<Project>, p: Project)
    requires forall q :: q in rows ==> q.id != p.id
    ensures Without(rows + [p], p.id) == rows
  {
    WithoutSplit(rows, p, []);
    assert rows + [p] + [] == rows + [p] && rows + [] == rows;
  }

  /** The handle returned by `Database.load`; only its identity matters here. */
  class Connection {
    constructor () {}
  }

  /** The module-level `dbInstance` together with the `projects` table behind it. */
  class ProjectDatabase {
    /** `dbInstance`: null until the first `initDB`. */
    var instance: Connection?
    /** How many times the CREATE TABLE statement has been executed. */
    var schemaRuns: nat
    /** The table's rows, in insertion order. */
    var rows: seq<Project>
    /** The AUTOINCREMENT counter: the id the next INSERT receives. */
    var nextId: int
    /** The engine's clock: the CURRENT_TIMESTAMP of the latest statement. */
    var clock: Timestamp

    ghost predicate Valid()
      reads this
    {
      && TableInvariant(rows, nextId, clock)
      && (instance == null ==> schemaRuns == 0)
      && (instance != null ==> schemaRuns == 1)
    }

    /** A process that has not yet touched the database, over an empty database file. */
    constructor ()
      ensures Valid()
      ensures instance == null && schemaRuns == 0
      ensures rows == [] && nextId == 1 && clock == 0
    {
      instance := null;
      schemaRuns := 0;
      rows := [];
      nextId := 1;
      clock := 0;
    }

    /** `initDB`: load the database and create the table on the first call only; later calls return the same handle. */
    method InitDB() returns (db: Connection)
      requires Valid()
      modifies this`instance, this`schemaRuns
      ensures Valid()
      ensures instance == db
      ensures old(instance) != null ==> db == old(instance) && schemaRuns == old(schemaRuns)
      ensures old(instance) == null ==> fresh(db) && schemaRuns == old(schemaRuns) + 1
    {
      if instance != null {
        return instance;
      }
      db := new Connection();
      instance := db;
      // CREATE TABLE IF NOT EXISTS leaves existing rows alone.
      schemaRuns := schemaRuns + 1;
    }

    /**
     * `addProjectToDB`: insert one row with the next id, the joined path, and
     * both `last_opened` and `created_at` set to the current time, which is
     * `elapsed` after the previous statement's.
     */
    method AddProject(name: string, path: string, elapsed: nat)
      requires Valid()
      modifies this
      ensures Valid() && instance != null
      ensures old(instance) != null ==> instance == old(instance)
      ensures clock == old(clock) + elapsed
      ensures nextId == old(nextId) + 1
      ensures rows == old(rows) + [Project(old(nextId), name, FullPath(path, name), Some(clock), clock)]
      ensures forall p :: p in old(rows) ==> p.id < rows[|rows| - 1].id
    {
      var db := InitDB();
      var fullPath := FullPath(path, name);
      clock := clock + elapsed;
      rows := rows + [Project(nextId, name, fullPath, Some(clock), clock)];
      nextId := nextId + 1;
    }

    /** `getProjects`: every row exactly once, newest first. */
    method GetProjects() returns (list: seq<Project>)
      requires Valid()
      modifies this`instance, this`schemaRuns
      ensures Valid() && instance != null
      ensures old(instance) != null ==> instance == old(instance)
      ensures list == NewestFirst(rows)
      ensures multiset(list) == multiset(rows) && NewestFirstOrder(list)
    {
      var db := InitDB();
      list := NewestFirst(rows);
    }

    /** `deleteProjectFromDB`: remove the row with that id, if any; the others stay as they were. */
    method DeleteProject(id: int)
      requires Valid()
      modifies this
      ensures Valid() && instance != null
      ensures old(instance) != null ==> instance == old(instance)
      ensures nextId == old(nextId) && clock == old(clock)
      ensures rows == Without(old(rows), id)
    {
      var db := InitDB();
      rows := Without(rows, id);
    }
  }

  /** Two table operations in a row: an insert followed by deleting the new id gives back the earlier rows. */
  method AddThenDelete(db: ProjectDatabase, name: string, path: string, elapsed: nat)
    requires db.Valid()
    modifies db
    ensures db.Valid()
    ensures db.rows == old(db.rows)
  {
    var id := db.nextId;
    db.AddProject(name, path, elapsed);
    db.DeleteProject(id);
    InsertThenDeleteRestores(old(db.rows), Project(id, name, FullPath(path, name), Some(db.clock), db.clock));
  }
}
