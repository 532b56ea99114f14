// The sessions table as internal/core/sessions_repository.go updates it. Timestamps are not modelled.
module SessionRows {
  import opened Common

  datatype SessionState = Idle | SingleBroadcast | MultiBroadcast | Viewer

  datatype MediaType = Video | Audio

  datatype Row = Row(
    id: int, user: User, online: bool, state: SessionState, media: Option<MediaType>, imageFilename: Option<string>)

  /** The rows in insertion order and the identity column's next value. */
  datatype SessionTable = SessionTable(rows: seq<Row>, nextId: int)

  predicate HasRow(rows: seq<Row>, u: User) {
    exists i :: 0 <= i < |rows| && rows[i].user == u
  }

  /** The changes the repository makes, as requests that succeeded. */
  datatype Change = Save | SetOffline | StartPublish | StopPublish

  /** What a change does to a row it hits. */
  function Changed(c: Change, r: Row): Row {
    match c
    case Save => r.(online := true)
    case SetOffline => r.(online := false, state := Idle, media := None)
    case StartPublish => r.(state := SingleBroadcast, media := Some(Video), online := true)
    case StopPublish => r.(state := Idle, media := None)
  }

  function UpdateWhere(rows: seq<Row>, u: User, c: Change): seq<Row> {
    seq(|rows|, i requires 0 <= i < |rows| => if rows[i].user == u then Changed(c, rows[i]) else rows[i])
  }

  /** The upsert on the unique user column: a conflicting row only comes online. Either way the identity
      column has produced a value. */
  function Upsert(t: SessionTable, u: User): SessionTable {
    SessionTable(
      if HasRow(t.rows, u) then UpdateWhere(t.rows, u, Save)
      else t.rows + [Row(t.nextId, u, true, Idle, None, None)],
      t.nextId + 1)
  }

  /** A media type is set iff the row is broadcasting, and a broadcasting row is online. */
  predicate RowOk(r: Row) {
    (r.media.Some? <==> r.state == SingleBroadcast) && (r.state == SingleBroadcast ==> r.online)
  }

  /** One row per user, and positive, distinct identities. */
  predicate KeysOk(t: SessionTable) {
    && t.nextId >= 1
    && (forall i, j :: 0 <= i < j < |t.rows| ==> t.rows[i].user != t.rows[j].user && t.rows[i].id != t.rows[j].id)
    && (forall i :: 0 <= i < |t.rows| ==> 1 <= t.rows[i].id < t.nextId)
  }

  predicate RowsOk(t: SessionTable) {
    KeysOk(t) && forall i :: 0 <= i < |t.rows| ==> RowOk(t.rows[i])
  }

  predicate Broadcasts(t: SessionTable, u: User) {
    exists i :: 0 <= i < |t.rows| && t.rows[i].user == u && t.rows[i].state == SingleBroadcast
  }

  predicate IsOnline(t: SessionTable, u: User) {
    exists i :: 0 <= i < |t.rows| && t.rows[i].user == u && t.rows[i].online
  }

  function ApplyChange(t: SessionTable, c: Change, u: User): SessionTable {
    if c == Save then Upsert(t, u) else t.(rows := UpdateWhere(t.rows, u, c))
  }

  lemma ChangeKeepsRowsOk(t: SessionTable, c: Change, u: User)
    requires RowsOk(t)
    ensures RowsOk(ApplyChange(t, c, u))
  {
    var t' := ApplyChange(t, c, u);
    forall i | 0 <= i < |t.rows| ensures t'.rows[i].user == t.rows[i].user && t'.rows[i].id == t.rows[i].id {
    }
  }

  /** A change moves no row and renames none: the other users' rows are exactly what they were, and the user's
      own row keeps its identity and its image. A row is added only by a save for a user without one. */
  lemma OthersUntouched(t: SessionTable, c: Change, u: User)
    ensures var t' := ApplyChange(t, c, u);
      && |t'.rows| == |t.rows| + (if c == Save && !HasRow(t.rows, u) then 1 else 0)
      && (forall i :: 0 <= i < |t.rows| && t.rows[i].user != u ==> t'.rows[i] == t.rows[i])
      && (forall i :: 0 <= i < |t.rows| ==>
            t'.rows[i].(online := true, state := Idle, media := None) ==
            t.rows[i].(online := true, state := Idle, media := None))
      && (forall i :: |t.rows| <= i < |t'.rows| ==> t'.rows[i] == Row(t.nextId, u, true, Idle, None, None))
      && t'.nextId == t.nextId + (if c == Save then 1 else 0)
  {
  }

  /** Column by column: what each change writes into the row of its user. A save for a user without a row is in
      `OthersUntouched`. */
  lemma ColumnsWritten(t: SessionTable, u: User, i: nat)
    requires i < |t.rows| && t.rows[i].user == u
    ensures var saved := ApplyChange(t, Save, u).rows[i];
      saved.online && saved.state == t.rows[i].state && saved.media == t.rows[i].media
    ensures var offline := ApplyChange(t, SetOffline, u).rows[i];
      !offline.online && offline.state == Idle && offline.media == None
    ensures var published := ApplyChange(t, StartPublish, u).rows[i];
      published.online && published.state == SingleBroadcast && published.media == Some(Video)
    ensures var stopped := ApplyChange(t, StopPublish, u).rows[i];
      stopped.online == t.rows[i].online && stopped.state == Idle && stopped.media == None
    ensures forall c :: i < |ApplyChange(t, c, u).rows| && ApplyChange(t, c, u).rows[i].user == u
                        && ApplyChange(t, c, u).rows[i].id == t.rows[i].id
                        && ApplyChange(t, c, u).rows[i].imageFilename == t.rows[i].imageFilename
  {
    assert HasRow(t.rows, u);
  }

  /** What a change does to what a user's row says: nothing for the other users, and the user's own row is
      online after a save, off the air after stop and offline, on the air after publish if it exists. */
  lemma ChangeMeaning(t: SessionTable, c: Change, u: User, v: User)
    requires RowsOk(t)
    ensures var t' := ApplyChange(t, c, u);
      && (v != u ==> Broadcasts(t', v) == Broadcasts(t, v) && IsOnline(t', v) == IsOnline(t, v))
      && HasRow(t'.rows, v) == (HasRow(t.rows, v) || (v == u && c == Save))
      && (v == u ==> Broadcasts(t', v) == match c
           case Save => Broadcasts(t, v)
           case StartPublish => HasRow(t.rows, v)
           case _ => false)
      && (v == u ==> IsOnline(t', v) == match c
           case Save => true
           case StartPublish => HasRow(t.rows, v)
           case SetOffline => false
           case StopPublish => IsOnline(t, v))
  {
    var t' := ApplyChange(t, c, u);
    forall i | 0 <= i < |t.rows| ensures t'.rows[i].user == t.rows[i].user {
    }
    if i :| 0 <= i < |t.rows| && t.rows[i].user == v {
      assert t'.rows[i].user == v;
      forall j | 0 <= j < |t.rows| && j != i ensures t.rows[j].user != v {
      }
    } else if c == Save && u == v {
      assert t'.rows[|t.rows|].user == v;
    }
  }

  class SessionsRepository {
    var table: SessionTable

    constructor (table: SessionTable)
      ensures this.table == table
    {
      this.table := table;
    }

    /** Every statement either runs or reports an error and leaves the table alone. */
    method Execute(c: Change, u: User, ok: bool)
      modifies this
      ensures table == if ok then ApplyChange(old(table), c, u) else old(table)
    {
      if ok {
        if c == Save {
          SaveSession(u);
        } else {
          Update(c, u);
        }
      }
    }

    method SaveSession(u: User)
      modifies this
      ensures table == Upsert(old(table), u)
    {
      if HasRow(table.rows, u) {
        Update(Save, u);
      } else {
        table := table.(rows := table.rows + [Row(table.nextId, u, true, Idle, None, None)]);
      }
      table := table.(nextId := table.nextId + 1);
    }

    /** Hits the row of the user and no other, and keeps the table's invariant. */
    method Update(c: Change, u: User)
      modifies this
      ensures |table.rows| == |old(table).rows| && table.nextId == old(table).nextId
      ensures forall i :: 0 <= i < |table.rows| && old(table).rows[i].user != u ==> table.rows[i] == old(table).rows[i]
      ensures forall i :: 0 <= i < |table.rows| && old(table).rows[i].user == u ==>
                table.rows[i] == Changed(c, old(table).rows[i])
      ensures RowsOk(old(table)) ==> RowsOk(table)
    {
      table := table.(rows := UpdateWhere(table.rows, u, c));
    }
  }
}
