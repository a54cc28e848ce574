/** The friendship operations statement by statement, over the friendship table. */
module FriendshipsServices {
  import opened Base
  import opened Friendships

  class FriendshipsService {
    const users: set<Id>
    var rows: Rows
    var clock: nat

    ghost predicate Valid()
      reads this
    {
      OneRowPerPair(rows) && forall f :: f in rows ==> RowOk(rows[f], clock)
    }

    constructor (users: set<Id>)
      ensures this.users == users && rows == map[] && clock == 0 && Valid()
    {
      this.users := users;
      this.rows := map[];
      this.clock := 0;
    }

    /** `findUnique` by id. */
    method Find(f: Id) returns (row: Option<Row>)
      ensures row == if f in rows then Some(rows[f]) else None
    {
      if f in rows {
        return Some(rows[f]);
      }
      return None;
    }

    /** `findFirst` in either direction. */
    method FindBetween(a: Id, b: Id) returns (f: Option<Id>)
      ensures f.Some? <==> PairTaken(rows, a, b)
      ensures f.Some? ==> f.value in rows && Between(rows[f.value], a, b)
    {
      if PairTaken(rows, a, b) {
        var g :| g in rows && Between(rows[g], a, b);
        return Some(g);
      }
      return None;
    }

    method Request(u: Id, v: Id, f: Id) returns (error: Option<Error>)
      requires Valid() && f !in rows
      modifies this
      ensures Valid() && clock == old(clock) + 2
      ensures Effect(rows, error) == Perform(users, old(rows), Op.Request(u, v, f), old(clock) + 1)
    {
      PerformKeepsOneRow(users, rows, Op.Request(u, v, f), clock + 1);
      PerformKeepsRowOk(users, rows, Op.Request(u, v, f), clock + 1);
      KeyIsInPair(rows, u, v);
      clock := clock + 2;
      if u == v {
        return Some(BadRequest);
      }
      var existing := FindBetween(u, v);
      if existing.Some? {
        return Some(Conflict);
      }
      if KeyTaken(rows, u, v) || u !in users || v !in users {
        return Some(KeyViolation);
      }
      rows := rows[f := Row(u, v, Pending, clock - 1, clock, clock)];
      return None;
    }

    method Accept(f: Id, u: Id) returns (error: Option<Error>)
      requires Valid()
      modifies this
      ensures Valid() && clock == old(clock) + 2
      ensures Effect(rows, error) == Perform(users, old(rows), Op.Accept(f, u), old(clock) + 1)
    {
      PerformKeepsOneRow(users, rows, Op.Accept(f, u), clock + 1);
      PerformKeepsRowOk(users, rows, Op.Accept(f, u), clock + 1);
      clock := clock + 2;
      var row := Find(f);
      if row.None? {
        return Some(NotFound);
      }
      if row.value.receiver != u {
        return Some(Forbidden);
      }
      if row.value.status != Pending {
        return Some(BadRequest);
      }
      rows := rows[f := rows[f].(status := Accepted, changed := clock)];
      return None;
    }

    method Block(f: Id, u: Id) returns (error: Option<Error>)
      requires Valid()
      modifies this
      ensures Valid() && clock == old(clock) + 2
      ensures Effect(rows, error) == Perform(users, old(rows), Op.Block(f, u), old(clock) + 1)
    {
      PerformKeepsOneRow(users, rows, Op.Block(f, u), clock + 1);
      PerformKeepsRowOk(users, rows, Op.Block(f, u), clock + 1);
      clock := clock + 2;
      var row := Find(f);
      if row.None? {
        return Some(NotFound);
      }
      if row.value.initiator != u && row.value.receiver != u {
        return Some(Forbidden);
      }
      rows := rows[f := rows[f].(status := Blocked, changed := clock)];
      return None;
    }

    method Remove(f: Id, u: Id) returns (error: Option<Error>)
      requires Valid()
      modifies this
      ensures Valid() && clock == old(clock) + 2
      ensures Effect(rows, error) == Perform(users, old(rows), Op.Remove(f, u), old(clock) + 1)
    {
      PerformKeepsOneRow(users, rows, Op.Remove(f, u), clock + 1);
      PerformKeepsRowOk(users, rows, Op.Remove(f, u), clock + 1);
      clock := clock + 2;
      var row := Find(f);
      if row.None? {
        return Some(NotFound);
      }
      if row.value.initiator != u && row.value.receiver != u {
        return Some(Forbidden);
      }
      rows := rows - {f};
      return None;
    }
  }
}
