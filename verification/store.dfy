/** The durable table of incidents, as its contract states it.

    Rows are values: what a reader is handed is a copy, and a write replaces a
    row whole. */
module Stores {
  import opened Base
  import opened Incidents

  datatype StoreError = NotFound | Conflict | ActiveExists

  type Table = map<string, Record>

  /** Writing r would leave two live incidents on one dedup key. */
  predicate Clashes(rows: Table, r: Record) {
    && !r.Terminal()
    && exists id :: id in rows && id != r.id && rows[id].dedupKey == r.dedupKey && !rows[id].Terminal()
  }

  /** Last write wins. */
  function PutRow(rows: Table, r: Record): Result<Table, StoreError> {
    if Clashes(rows, r) then Err(ActiveExists) else Ok(rows[r.id := r])
  }

  /** Compare and swap on the version token. It never creates a row. */
  function PutRowIfUnchanged(rows: Table, r: Record, token: Time): Result<Table, StoreError> {
    if r.id !in rows then Err(NotFound)
    else if rows[r.id].updatedAt != token then Err(Conflict)
    else PutRow(rows, r)
  }

  /** Every row is filed under its own id. */
  ghost predicate Keyed(rows: Table) {
    forall id :: id in rows ==> rows[id].id == id
  }

  /** An event storm is one incident: at most one live row per dedup key. */
  ghost predicate OneLivePerKey(rows: Table) {
    forall a, b :: a in rows && b in rows && a != b && rows[a].dedupKey == rows[b].dedupKey ==>
                     rows[a].Terminal() || rows[b].Terminal()
  }

  /** Neither kind of write can break what the table promises, whatever copy it
      is handed and however stale that copy is. */
  lemma WritesKeepOneLive(rows: Table, r: Record, token: Time)
    requires Keyed(rows) && OneLivePerKey(rows)
    ensures PutRow(rows, r).Ok? ==>
              Keyed(PutRow(rows, r).value) && OneLivePerKey(PutRow(rows, r).value)
    ensures PutRowIfUnchanged(rows, r, token).Ok? ==>
              && Keyed(PutRowIfUnchanged(rows, r, token).value)
              && OneLivePerKey(PutRowIfUnchanged(rows, r, token).value)
  {
    if PutRow(rows, r).Ok? {
      var next := PutRow(rows, r).value;
      forall a, b | a in next && b in next && a != b && next[a].dedupKey == next[b].dedupKey
        ensures next[a].Terminal() || next[b].Terminal()
      {
        if a == r.id {
          assert next[b] == rows[b];
        } else if b == r.id {
          assert next[a] == rows[a];
        }
      }
    }
  }

  /** Nothing but another live row of its own key refuses a write. */
  lemma RefusedExactlyWhen(rows: Table, r: Record)
    ensures PutRow(rows, r).Err? <==>
              && r.closedAt.None? && (r.ackedAt.None? || r.resolvedAt.None?)
              && exists id :: id in rows && id != r.id && rows[id].dedupKey == r.dedupKey && !rows[id].Terminal()
    ensures PutRow(rows, r).Err? ==> PutRow(rows, r).error == ActiveExists
  {
  }

  /** On a table with at most one live row per key, a write is accepted exactly if
      there is still at most one with it, and then it changes that row alone. */
  lemma AcceptedExactlyWhen(rows: Table, r: Record)
    requires Keyed(rows) && OneLivePerKey(rows)
    ensures PutRow(rows, r).Ok? <==> OneLivePerKey(rows[r.id := r])
    ensures PutRow(rows, r).Ok? ==>
              var next := PutRow(rows, r).value;
              && r.id in next && next[r.id] == r
              && forall id :: id != r.id ==> (id in next <==> id in rows) && (id in rows ==> next[id] == rows[id])
  {
    RefusedExactlyWhen(rows, r);
    var next := rows[r.id := r];
    if PutRow(rows, r).Ok? {
      WritesKeepOneLive(rows, r, 0);
    } else {
      var id :| id in rows && id != r.id && rows[id].dedupKey == r.dedupKey && !rows[id].Terminal();
      assert next[id] == rows[id] && next[r.id] == r;
    }
  }

  /** A guarded write is accepted exactly if its row is there, under the token it
      brings, and the table stays sound with it; and each refusal says which of
      the three it was. */
  lemma SwappedExactlyWhen(rows: Table, r: Record, token: Time)
    requires Keyed(rows) && OneLivePerKey(rows)
    ensures var put := PutRowIfUnchanged(rows, r, token);
            && (put.Ok? <==> r.id in rows && rows[r.id].updatedAt == token && OneLivePerKey(rows[r.id := r]))
            && (put.Ok? ==> put.value == rows[r.id := r])
            && (put == Err(NotFound) <==> r.id !in rows)
            && (put == Err(Conflict) <==> r.id in rows && rows[r.id].updatedAt != token)
            && (put == Err(ActiveExists) <==>
                  r.id in rows && rows[r.id].updatedAt == token && !OneLivePerKey(rows[r.id := r]))
  {
    AcceptedExactlyWhen(rows, r);
  }

  /** However many other incidents are live, a live row is never refused a change of
      its own under its token. */
  lemma ALiveRowIsNeverRefused(rows: Table, id: string, r: Record)
    requires Keyed(rows) && OneLivePerKey(rows)
    requires id in rows && !rows[id].Terminal() && r.id == id && r.dedupKey == rows[id].dedupKey
    ensures PutRow(rows, r) == Ok(rows[id := r])
    ensures PutRowIfUnchanged(rows, r, rows[id].updatedAt) == Ok(rows[id := r])
  {
    RefusedExactlyWhen(rows, r);
  }

  class Store {
    var rows: Table

    constructor ()
      ensures rows == map[]
    {
      rows := map[];
    }

    method Put(r: Record) returns (err: Option<StoreError>)
      modifies this
      ensures match PutRow(old(rows), r)
              case Ok(next) => err == None && rows == next
              case Err(e) => err == Some(e) && rows == old(rows)
      ensures Keyed(old(rows)) && OneLivePerKey(old(rows)) ==>
                if OneLivePerKey(old(rows)[r.id := r]) then err == None && rows == old(rows)[r.id := r]
                else err == Some(ActiveExists) && rows == old(rows)
    {
      ghost var was := rows;
      if Keyed(was) && OneLivePerKey(was) {
        AcceptedExactlyWhen(was, r);
      }
      if Clashes(rows, r) {
        return Some(ActiveExists);
      }
      rows := rows[r.id := r];
      return None;
    }

    method PutIfUnchanged(r: Record, token: Time) returns (err: Option<StoreError>)
      modifies this
      ensures match PutRowIfUnchanged(old(rows), r, token)
              case Ok(next) => err == None && rows == next
              case Err(e) => err == Some(e) && rows == old(rows)
      ensures Keyed(old(rows)) && OneLivePerKey(old(rows)) ==>
                && (err == None <==> r.id in old(rows) && old(rows)[r.id].updatedAt == token
                                     && OneLivePerKey(old(rows)[r.id := r]))
                && rows == if err == None then old(rows)[r.id := r] else old(rows)
    {
      if r.id !in rows {
        return Some(NotFound);
      }
      if rows[r.id].updatedAt != token {
        return Some(Conflict);
      }
      err := Put(r);
    }

    method Get(id: string) returns (r: Result<Record, StoreError>)
      ensures r == if id in rows then Ok(rows[id]) else Err(NotFound)
    {
      if id in rows {
        return Ok(rows[id]);
      }
      return Err(NotFound);
    }

    /** Every live row, each once. */
    method Active() returns (live: seq<Record>)
      requires Keyed(rows)
      ensures Distinct(live)
      ensures forall r :: r in live <==> r.id in rows && rows[r.id] == r && !r.Terminal()
    {
      live := [];
      var left := rows.Keys;
      while left != {}
        invariant left <= rows.Keys
        invariant Distinct(live)
        invariant forall r :: r in live <==>
                    r.id in rows && r.id !in left && rows[r.id] == r && !r.Terminal()
        decreases left
      {
        var id :| id in left;
        left := left - {id};
        if !rows[id].Terminal() {
          assert rows[id] !in live;
          live := live + [rows[id]];
        }
      }
    }

    /** Other goroutines ran, and the table is now whatever they left. */
    method Elsewhere(left: Table)
      modifies this
      ensures rows == left
    {
      rows := left;
    }
  }
}
