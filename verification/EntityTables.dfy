/**
  Two tables of entities under batch creation: the in-memory map, which validates a whole
  batch and then writes it, and the SQLite table, which upserts a batch inside a transaction.
 */
module EntityTables {

  datatype Entity = Entity(
    id: string, name: string, entityType: string, observations: seq<string>, createdAt: int, updatedAt: int)

  type Table = map<string, Entity>

  datatype Stage = Begin | Prepare | Exec | Commit

  datatype Error = EmptyId | AlreadyExists(id: string) | Canceled | Database(stage: Stage)

  datatype Outcome = Success | Failure(error: Error)

  /** The database error a call of the SQLite backend meets, if any. */
  datatype Fault = NoFault | FailBegin | FailPrepare | FailExec(at: nat) | FailCommit

  /** White space as Unicode and Go's TrimSpace define it. */
  predicate IsSpace(c: char) {
    || '\U{9}' <= c <= '\U{d}' || c == ' ' || c == '\U{85}' || c == '\U{a0}' || c == '\U{1680}'
    || '\U{2000}' <= c <= '\U{200a}' || c == '\U{2028}' || c == '\U{2029}' || c == '\U{202f}'
    || c == '\U{205f}' || c == '\U{3000}'
  }

  /** They are these 25 characters. */
  lemma SpacesListed(c: char)
    ensures IsSpace(c) <==>
            || c in "\U{9}\U{a}\U{b}\U{c}\U{d}\U{20}\U{85}\U{a0}\U{1680}\U{2000}\U{2001}\U{2002}\U{2003}"
            || c in "\U{2004}\U{2005}\U{2006}\U{2007}\U{2008}\U{2009}\U{200a}\U{2028}\U{2029}\U{202f}"
            || c in "\U{205f}\U{3000}"
  {
    if '\U{9}' <= c <= '\U{d}' {
      var i := c as int - 9;
      assert c == "\U{9}\U{a}\U{b}\U{c}\U{d}"[i];
    } else if '\U{2000}' <= c <= '\U{200a}' {
      var i := c as int - 0x2000;
      assert c == "\U{2000}\U{2001}\U{2002}\U{2003}\U{2004}\U{2005}\U{2006}\U{2007}\U{2008}\U{2009}\U{200a}"[i];
    }
  }

  /** Nothing is left of the id once trimmed. */
  predicate Blank(id: string) { forall i | 0 <= i < |id| :: IsSpace(id[i]) }

  // ---------------------------------------------------------------------------
  // Writing a batch
  // ---------------------------------------------------------------------------

  function PutAll(t: Table, b: seq<Entity>): Table {
    if b == [] then t
    else
      var e := b[|b| - 1];
      PutAll(t, b[..|b| - 1])[e.id := e]
  }

  /** INSERT, and ON CONFLICT update everything but created_at. */
  function Upserted(t: Table, e: Entity): Table {
    t[e.id := if e.id in t then e.(createdAt := t[e.id].createdAt) else e]
  }

  function UpsertAll(t: Table, b: seq<Entity>): Table {
    if b == [] then t else Upserted(UpsertAll(t, b[..|b| - 1]), b[|b| - 1])
  }

  /** The first index at which `id` occurs in the batch, or its length. */
  function First(b: seq<Entity>, id: string): (i: nat)
    ensures i <= |b|
    ensures i < |b| ==> b[i].id == id
    ensures forall k | 0 <= k < i :: b[k].id != id
  {
    if b == [] then 0
    else
      var n := |b| - 1;
      var i := First(b[..n], id);
      if i < n then i else if b[n].id == id then n else n + 1
  }

  /** The last index at which `id` occurs in the batch, or -1. */
  function Last(b: seq<Entity>, id: string): (i: int)
    ensures -1 <= i < |b|
    ensures i >= 0 ==> b[i].id == id
    ensures forall k | i < k < |b| :: b[k].id != id
  {
    if b == [] then -1
    else
      var n := |b| - 1;
      if b[n].id == id then n else Last(b[..n], id)
  }

  /** The map keeps the last entity of each id. */
  lemma {:induction false} PutAllKeepsLast(t: Table, b: seq<Entity>, id: string)
    ensures id in PutAll(t, b) <==> id in t || Last(b, id) >= 0
    ensures id in PutAll(t, b) ==> PutAll(t, b)[id] == if Last(b, id) >= 0 then b[Last(b, id)] else t[id]
  {
    if b != [] {
      PutAllKeepsLast(t, b[..|b| - 1], id);
    }
  }

  /** created_at of a row after the batch: that of the row already there, or of the first
      entity of that id. */
  function Birth(t: Table, b: seq<Entity>, id: string): int
    requires id in t || First(b, id) < |b|
  {
    if id in t then t[id].createdAt else b[First(b, id)].createdAt
  }

  /** SQLite keeps the last entity of each id, but the first time of creation. */
  lemma {:induction false} UpsertAllKeepsBirth(t: Table, b: seq<Entity>, id: string)
    ensures id in UpsertAll(t, b) <==> id in t || First(b, id) < |b|
    ensures First(b, id) < |b| <==> Last(b, id) >= 0
    ensures id in UpsertAll(t, b) ==>
              UpsertAll(t, b)[id] ==
              if Last(b, id) >= 0 then b[Last(b, id)].(createdAt := Birth(t, b, id)) else t[id]
  {
    if b != [] {
      UpsertAllKeepsBirth(t, b[..|b| - 1], id);
    }
  }

  predicate SameButCreated(e: Entity, f: Entity) { e == f.(createdAt := e.createdAt) }

  predicate AgreeButCreated(t: Table, u: Table) {
    t.Keys == u.Keys && forall id | id in t :: SameButCreated(t[id], u[id])
  }

  /** Whatever the batch, tables that differ at most in created_at still do after it. */
  lemma {:induction false} TablesAgreeButCreated(t: Table, u: Table, b: seq<Entity>)
    requires AgreeButCreated(t, u)
    ensures AgreeButCreated(PutAll(t, b), UpsertAll(u, b))
  {
    forall id
      ensures id in PutAll(t, b) <==> id in UpsertAll(u, b)
      ensures id in PutAll(t, b) ==> SameButCreated(PutAll(t, b)[id], UpsertAll(u, b)[id])
    {
      PutAllKeepsLast(t, b, id);
      UpsertAllKeepsBirth(u, b, id);
    }
  }

  /** The last entity of every id carries the time of creation that SQLite keeps. */
  predicate BirthsRepeated(t: Table, b: seq<Entity>) {
    forall i | 0 <= i < |b| && Last(b, b[i].id) == i ::
      First(b, b[i].id) < |b| && b[i].createdAt == Birth(t, b, b[i].id)
  }

  lemma EqualRowIff(t: Table, b: seq<Entity>, id: string)
    requires id in PutAll(t, b)
    ensures id in UpsertAll(t, b) && (Last(b, id) >= 0 ==> First(b, id) < |b|)
    ensures PutAll(t, b)[id] == UpsertAll(t, b)[id]
       <==> (Last(b, id) >= 0 ==> b[Last(b, id)].createdAt == Birth(t, b, id))
  {
    PutAllKeepsLast(t, b, id);
    UpsertAllKeepsBirth(t, b, id);
  }

  /** The tables are equal exactly when that holds. */
  lemma {:induction false} EqualTablesIff(t: Table, b: seq<Entity>)
    ensures PutAll(t, b) == UpsertAll(t, b) <==> BirthsRepeated(t, b)
  {
    TablesAgreeButCreated(t, t, b);
    if BirthsRepeated(t, b) {
      forall id | id in PutAll(t, b)
        ensures PutAll(t, b)[id] == UpsertAll(t, b)[id]
      {
        EqualRowIff(t, b, id);
        assert Last(b, id) >= 0 ==> Last(b, b[Last(b, id)].id) == Last(b, id);
      }
    } else {
      var i :| 0 <= i < |b| && Last(b, b[i].id) == i
               && !(First(b, b[i].id) < |b| && b[i].createdAt == Birth(t, b, b[i].id));
      PutAllKeepsLast(t, b, b[i].id);
      EqualRowIff(t, b, b[i].id);
    }
  }

  predicate Distinct(b: seq<Entity>) { forall i, j | 0 <= i < j < |b| :: b[i].id != b[j].id }

  predicate AllNew(t: Table, b: seq<Entity>) { forall i | 0 <= i < |b| :: b[i].id !in t }

  lemma DistinctNewTablesEqual(t: Table, b: seq<Entity>)
    requires Distinct(b) && AllNew(t, b)
    ensures PutAll(t, b) == UpsertAll(t, b)
  {
    EqualTablesIff(t, b);
    forall i | 0 <= i < |b|
      ensures First(b, b[i].id) == i
    {
      var f := First(b, b[i].id);
      assert f <= i;
    }
  }

  /** A batch adds at most one row per entity, and exactly one each when its ids are all
      different and all new. */
  lemma {:induction false} GrowthIff(t: Table, b: seq<Entity>)
    ensures |UpsertAll(t, b)| == |PutAll(t, b)| <= |t| + |b|
    ensures |PutAll(t, b)| == |t| + |b| <==> Distinct(b) && AllNew(t, b)
  {
    TablesAgreeButCreated(t, t, b);
    assert |UpsertAll(t, b).Keys| == |UpsertAll(t, b)| && |PutAll(t, b).Keys| == |PutAll(t, b)|;
    if b != [] {
      var n := |b| - 1;
      GrowthIff(t, b[..n]);
      PutAllKeepsLast(t, b[..n], b[n].id);
      PutSize(PutAll(t, b[..n]), b[n]);
      ExtendDistinct(t, b, n);
    }
  }

  lemma PutSize(t: Table, e: Entity)
    ensures |t[e.id := e]| == |t| + (if e.id in t then 0 else 1)
  {
    assert t[e.id := e].Keys == t.Keys + {e.id};
    assert |t[e.id := e].Keys| == |t[e.id := e]| && |t.Keys| == |t|;
  }

  lemma ExtendDistinct(t: Table, b: seq<Entity>, n: nat)
    requires n == |b| - 1
    ensures Distinct(b) && AllNew(t, b)
       <==> Distinct(b[..n]) && AllNew(t, b[..n]) && b[n].id !in t && Last(b[..n], b[n].id) < 0
  {
    var last := Last(b[..n], b[n].id);
    if last >= 0 {
      assert b[last].id == b[n].id;
    } else {
      forall k | 0 <= k < n ensures b[k].id != b[n].id { assert b[..n][k].id != b[n].id; }
      assert Distinct(b[..n]) ==> Distinct(b) by {
        forall i, j | 0 <= i < j < |b| && Distinct(b[..n]) ensures b[i].id != b[j].id {
          if j < n { assert b[..n][i].id != b[..n][j].id; }
        }
      }
    }
    assert AllNew(t, b) ==> AllNew(t, b[..n]);
    assert Distinct(b) ==> Distinct(b[..n]);
  }

  // ---------------------------------------------------------------------------
  // CreateEntities
  // ---------------------------------------------------------------------------

  datatype Created = Created(table: Table, outcome: Outcome)

  /** The in-memory check of one entity. */
  function Check(t: Table, e: Entity): Outcome {
    if Blank(e.id) then Failure(EmptyId)
    else if e.id in t then Failure(AlreadyExists(e.id))
    else Success
  }

  function FirstRejected(t: Table, b: seq<Entity>): (i: nat)
    ensures i <= |b|
    ensures i < |b| ==> Check(t, b[i]) != Success
    ensures forall k | 0 <= k < i :: Check(t, b[k]) == Success
  {
    if b == [] || Check(t, b[0]) != Success then 0 else 1 + FirstRejected(t, b[1..])
  }

  function MemoryCreate(t: Table, b: seq<Entity>, canceled: bool): Created {
    if b == [] then Created(t, Success)
    else if canceled then Created(t, Failure(Canceled))
    else
      var i := FirstRejected(t, b);
      if i < |b| then Created(t, Check(t, b[i])) else Created(PutAll(t, b), Success)
  }

  lemma AcceptedIsNew(t: Table, b: seq<Entity>)
    requires FirstRejected(t, b) == |b|
    ensures AllNew(t, b) && forall i | 0 <= i < |b| :: !Blank(b[i].id)
  {
    forall j | 0 <= j < |b|
      ensures b[j].id !in t && !Blank(b[j].id)
    {
      assert Check(t, b[j]) == Success;
    }
  }

  function FirstBlank(b: seq<Entity>): (i: nat)
    ensures i <= |b|
    ensures i < |b| ==> Blank(b[i].id)
    ensures forall k | 0 <= k < i :: !Blank(b[k].id)
  {
    if b == [] || Blank(b[0].id) then 0 else 1 + FirstBlank(b[1..])
  }

  /** A canceled context does not begin a transaction. */
  function SqliteCreate(t: Table, b: seq<Entity>, canceled: bool, fault: Fault): Created {
    if b == [] then Created(t, Success)
    else if canceled || fault.FailBegin? then Created(t, Failure(Database(Begin)))
    else if fault.FailPrepare? then Created(t, Failure(Database(Prepare)))
    else
      var i := FirstBlank(b);
      if fault.FailExec? && fault.at < i then Created(t, Failure(Database(Exec)))
      else if i < |b| then Created(t, Failure(EmptyId))
      else if fault.FailCommit? then Created(t, Failure(Database(Commit)))
      else Created(UpsertAll(t, b), Success)
  }

  /** An empty batch succeeds in both, canceled or not, and touches nothing. */
  lemma EmptyBatchSucceeds(t: Table, canceled: bool, fault: Fault)
    ensures MemoryCreate(t, [], canceled) == SqliteCreate(t, [], canceled, fault) == Created(t, Success)
  {
  }

  /** What the map answers: the first entity that is blank or already there decides, the blank id
      being looked at before the table; nothing is written unless all pass. */
  lemma MemoryAnswers(t: Table, b: seq<Entity>, canceled: bool, i: nat)
    requires i < |b| && forall k | 0 <= k < i :: !Blank(b[k].id) && b[k].id !in t
    ensures var c := MemoryCreate(t, b, canceled);
            && (c.outcome != Success ==> c.table == t)
            && (canceled ==> c.outcome == Failure(Canceled))
            && (!canceled && Blank(b[i].id) ==> c.outcome == Failure(EmptyId))
            && (!canceled && !Blank(b[i].id) && b[i].id in t ==> c.outcome == Failure(AlreadyExists(b[i].id)))
            && (!canceled && i == |b| - 1 && !Blank(b[i].id) && b[i].id !in t ==> c == Created(PutAll(t, b), Success))
  {
    var r := FirstRejected(t, b);
    assert r < |b| ==> Check(t, b[r]) != Success;
    assert r > i ==> Check(t, b[i]) == Success;
  }

  /** What SQLite answers: nothing begins under a canceled context; then the statements run in
      order, each after the check of its id, and whatever fails first decides and rolls back. */
  lemma SqliteAnswers(t: Table, b: seq<Entity>, canceled: bool, fault: Fault, i: nat)
    requires i < |b| && forall k | 0 <= k < i :: !Blank(b[k].id)
    ensures var c := SqliteCreate(t, b, canceled, fault);
            && (c.outcome != Success ==> c.table == t)
            && (canceled || fault.FailBegin? <==> c.outcome == Failure(Database(Begin)))
            && (!canceled && fault.FailPrepare? <==> c.outcome == Failure(Database(Prepare)))
            && (!canceled && fault.FailExec? && fault.at <= i && (fault.at == i ==> !Blank(b[i].id))
                ==> c.outcome == Failure(Database(Exec)))
            && (!canceled && Blank(b[i].id)
                && (fault.NoFault? || fault.FailCommit? || (fault.FailExec? && fault.at >= i))
                ==> c.outcome == Failure(EmptyId))
            && (!canceled && i == |b| - 1 && !Blank(b[i].id) && fault.FailCommit?
                ==> c.outcome == Failure(Database(Commit)))
            && (!canceled && i == |b| - 1 && !Blank(b[i].id) && (fault.NoFault? || (fault.FailExec? && fault.at > i))
                ==> c == Created(UpsertAll(t, b), Success))
  {
    var r := FirstBlank(b);
    assert r < |b| ==> Blank(b[r].id);
    assert r > i ==> !Blank(b[i].id);
  }

  /** Left to themselves the backends agree on acceptance exactly when the batch holds a blank
      id or no id that is already there; SQLite updates where the map refuses. */
  lemma {:induction false} AcceptanceAgreesIff(t: Table, b: seq<Entity>)
    ensures (MemoryCreate(t, b, false).outcome.Success? <==> SqliteCreate(t, b, false, NoFault).outcome.Success?)
       <==> (exists i :: 0 <= i < |b| && Blank(b[i].id)) || AllNew(t, b)
  {
    var i, k := FirstRejected(t, b), FirstBlank(b);
    if i < |b| {
      assert Check(t, b[i]) != Success;
    } else {
      AcceptedIsNew(t, b);
    }
  }

  /** When both accept the batch, their tables still differ at most in created_at, and not at
      all for distinct ids. */
  lemma AcceptedTablesAgree(t: Table, u: Table, b: seq<Entity>)
    requires AgreeButCreated(t, u) && MemoryCreate(t, b, false).outcome.Success?
    ensures SqliteCreate(u, b, false, NoFault).outcome.Success?
    ensures var m, s := MemoryCreate(t, b, false).table, SqliteCreate(u, b, false, NoFault).table;
            AgreeButCreated(m, s) && (t == u && Distinct(b) ==> m == s)
  {
    TablesAgreeButCreated(t, u, b);
    if b != [] {
      AcceptedIsNew(t, b);
    }
    if Distinct(b) && t == u {
      DistinctNewTablesEqual(t, b);
    }
  }

  /** One id already present: refused by the map, accepted by SQLite.  One id twice in a batch
      with two times of creation: the map keeps the second, SQLite the first. */
  lemma BackendsDiffer(e: Entity, f: Entity)
    requires !Blank(e.id) && f.id == e.id && f.createdAt != e.createdAt
    ensures MemoryCreate(map[e.id := e], [e], false).outcome == Failure(AlreadyExists(e.id))
    ensures SqliteCreate(map[e.id := e], [e], false, NoFault).outcome == Success
    ensures e.id in PutAll(map[], [e, f]) && e.id in UpsertAll(map[], [e, f])
    ensures PutAll(map[], [e, f])[e.id].createdAt == f.createdAt
    ensures UpsertAll(map[], [e, f])[e.id].createdAt == e.createdAt
  {
    assert FirstBlank([e]) == 1;
    assert [e, f][..1] == [e] && [e][..0] == [];
    assert UpsertAll(map[], [e]) == map[e.id := e];
  }

  /** Rows are filed under their own id, and no id is blank. */
  predicate TableSound(t: Table) { forall id | id in t :: t[id].id == id && !Blank(id) }

  lemma WriteKeepsSound(t: Table, b: seq<Entity>)
    requires TableSound(t) && forall i | 0 <= i < |b| :: !Blank(b[i].id)
    ensures TableSound(PutAll(t, b)) && TableSound(UpsertAll(t, b))
  {
    forall id | id in PutAll(t, b)
      ensures PutAll(t, b)[id].id == id && !Blank(id)
    {
      PutAllKeepsLast(t, b, id);
    }
    forall id | id in UpsertAll(t, b)
      ensures UpsertAll(t, b)[id].id == id && !Blank(id)
    {
      UpsertAllKeepsBirth(t, b, id);
    }
  }

  lemma CreateKeepsSound(t: Table, b: seq<Entity>, canceled: bool, fault: Fault)
    requires TableSound(t)
    ensures TableSound(MemoryCreate(t, b, canceled).table) && TableSound(SqliteCreate(t, b, canceled, fault).table)
  {
    if FirstRejected(t, b) == |b| {
      AcceptedIsNew(t, b);
    }
    if FirstBlank(b) == |b| {
      WriteKeepsSound(t, b);
    }
  }

  // ---------------------------------------------------------------------------
  // Runs
  // ---------------------------------------------------------------------------

  datatype Batch = Batch(entities: seq<Entity>, canceled: bool, fault: Fault)

  function MemoryRun(t: Table, bs: seq<Batch>): Table {
    if bs == [] then t else
      var last := bs[|bs| - 1];
      MemoryCreate(MemoryRun(t, bs[..|bs| - 1]), last.entities, last.canceled).table
  }

  function SqliteRun(t: Table, bs: seq<Batch>): Table {
    if bs == [] then t else
      var last := bs[|bs| - 1];
      SqliteCreate(SqliteRun(t, bs[..|bs| - 1]), last.entities, last.canceled, last.fault).table
  }

  /** The map accepts every batch of the run; nobody cancels and the database does not fail. */
  predicate AllAccepted(t: Table, bs: seq<Batch>) {
    forall n | 0 <= n < |bs| ::
      && !bs[n].canceled && bs[n].fault.NoFault?
      && MemoryCreate(MemoryRun(t, bs[..n]), bs[n].entities, false).outcome.Success?
  }

  /** Along such a run the backends stay in step: SQLite accepts each batch too, and the tables
      differ at most in created_at, and not at all if no batch repeats an id. */
  lemma {:induction false} RunsAgree(t: Table, bs: seq<Batch>)
    requires AllAccepted(t, bs)
    ensures AgreeButCreated(MemoryRun(t, bs), SqliteRun(t, bs))
    ensures (forall i | 0 <= i < |bs| :: Distinct(bs[i].entities)) ==> MemoryRun(t, bs) == SqliteRun(t, bs)
  {
    if bs != [] {
      var n := |bs| - 1;
      forall k | 0 <= k < n ensures bs[..n][..k] == bs[..k] {}
      assert AllAccepted(t, bs[..n]);
      RunsAgree(t, bs[..n]);
      AcceptedTablesAgree(MemoryRun(t, bs[..n]), SqliteRun(t, bs[..n]), bs[n].entities);
    }
  }

  /** No run of batches alters or removes an entity already in memory. */
  lemma {:induction false} MemoryNeverAlters(t: Table, bs: seq<Batch>, id: string)
    requires id in t
    ensures id in MemoryRun(t, bs) && MemoryRun(t, bs)[id] == t[id]
  {
    if bs != [] {
      var before, last := MemoryRun(t, bs[..|bs| - 1]), bs[|bs| - 1].entities;
      MemoryNeverAlters(t, bs[..|bs| - 1], id);
      PutAllKeepsLast(before, last, id);
      if FirstRejected(before, last) == |last| {
        AcceptedIsNew(before, last);
      }
    }
  }

  /** No run of upserts, failing or not, removes a row or changes its time of creation. */
  lemma {:induction false} SqliteKeepsBirths(t: Table, bs: seq<Batch>, id: string)
    requires id in t
    ensures id in SqliteRun(t, bs) && SqliteRun(t, bs)[id].createdAt == t[id].createdAt
  {
    if bs != [] {
      SqliteKeepsBirths(t, bs[..|bs| - 1], id);
      UpsertAllKeepsBirth(SqliteRun(t, bs[..|bs| - 1]), bs[|bs| - 1].entities, id);
    }
  }
}
