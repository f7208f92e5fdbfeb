/** The registry's side of an import: one row for every repository name. */
module Registry {
  import opened Options

  type Name = (string, string)
  type ObjectId = nat

  datatype Status = Ready | Importing | Forking

  datatype Row = Row(owner: ObjectId, status: Status, branch: string)

  type Rows = map<Name, Row>

  predicate Reserved(rows: Rows, name: Name, me: ObjectId) {
    name in rows && rows[name].owner == me && rows[name].status == Importing
  }

  predicate Published(rows: Rows, name: Name, me: ObjectId) {
    name in rows && rows[name].owner == me && rows[name].status == Ready
  }

  ghost predicate Named(rows: Rows, me: ObjectId) {
    exists n :: n in rows && rows[n].owner == me
  }

  function Finished(rows: Rows, name: Name, me: ObjectId, branch: string): Rows {
    if Reserved(rows, name, me) then rows[name := Row(me, Ready, branch)] else rows
  }

  function Withdrawn(rows: Rows, name: Name, me: ObjectId): Rows {
    if Reserved(rows, name, me) then rows - {name} else rows
  }

  /** What the rest of the system does to an object's own row: it may delete it or restamp its
      branch, and it never gives the object another name. */
  ghost predicate MineKept(me: ObjectId, before: Rows, after: Rows) {
    forall n :: n in after && after[n].owner == me ==>
      n in before && before[n].owner == me && before[n].status == after[n].status
  }

  class RepositoryIndex {
    var namespaces: set<string>
    var rows: Rows

    constructor (namespaces: set<string>)
      ensures this.namespaces == namespaces && rows == map[]
    {
      this.namespaces, rows := namespaces, map[];
    }

    /** A name is taken at most once, and only in a namespace that exists. */
    method CreateRepository(name: Name, row: Row) returns (created: bool)
      modifies this`rows
      ensures created == (name.0 in namespaces && name !in old(rows))
      ensures rows == if created then old(rows)[name := row] else old(rows)
    {
      if name.0 !in namespaces || name in rows {
        return false;
      }
      rows := rows[name := row];
      return true;
    }

    method FinishImport(name: Name, me: ObjectId, branch: string) returns (updated: bool)
      modifies this`rows
      ensures rows == Finished(old(rows), name, me, branch)
      ensures updated <==>
        name in old(rows) && old(rows)[name].owner == me && old(rows)[name].status == Importing
      ensures rows == if updated then old(rows)[name := Row(me, Ready, branch)] else old(rows)
    {
      updated := name in rows && rows[name].owner == me && rows[name].status == Importing;
      if updated {
        rows := rows[name := rows[name].(status := Ready, branch := branch)];
      }
    }

    method DeleteImportIfOwned(name: Name, me: ObjectId) returns (deleted: bool)
      modifies this`rows
      ensures rows == Withdrawn(old(rows), name, me)
      ensures deleted <==>
        name in old(rows) && old(rows)[name].owner == me && old(rows)[name].status == Importing
      ensures rows == if deleted then old(rows) - {name} else old(rows)
    {
      deleted := name in rows && rows[name].owner == me && rows[name].status == Importing;
      if deleted {
        rows := rows - {name};
      }
    }

    method GetRepository(name: Name) returns (row: Option<Row>)
      ensures row == if name in rows then Some(rows[name]) else None
    {
      if name in rows {
        return Some(rows[name]);
      }
      return None;
    }
  }
}
