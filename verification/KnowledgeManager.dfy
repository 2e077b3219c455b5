/**
  The create-entities request: decode each element, fill in what the caller left out, and
  hand the batch to whichever backend is configured.
 */
module KnowledgeManager {
  import opened EntityTables
  import opened EntityStatistics
  import opened StorageBackends

  /** The zero time, which an absent creation time decodes to. */
  const ZERO_TIME := 0

  datatype Raw = Undecodable | Decoded(entity: Entity)

  /** `checks` is how many looks at the context still find it alive; `generated` gives the id
      generated for the element at an index. */
  datatype Request = Request(raws: seq<Raw>, now: int, generated: nat -> string, checks: nat, fault: Fault)

  datatype Reply = Count(n: nat) | DecodeError(index: nat) | RequestCanceled | StorageError(error: Error)

  datatype Kind = InMemory | Sqlite

  function Prepared(e: Entity, now: int, freshID: string): Entity {
    e.(id := if e.id == "" then freshID else e.id,
       createdAt := if e.createdAt == ZERO_TIME then now else e.createdAt,
       updatedAt := now)
  }

  /** The first element at which the loop stops, or the length. */
  function StopsAt(q: Request): (i: nat)
    ensures i <= |q.raws|
    ensures i < |q.raws| ==> i + 1 >= q.checks || q.raws[i].Undecodable?
    ensures i == 0 || i < q.checks
    ensures forall k | 0 <= k < i :: q.raws[k].Decoded?
  {
    StopsFrom(q, 0)
  }

  function StopsFrom(q: Request, from: nat): (i: nat)
    requires from <= |q.raws|
    ensures from <= i <= |q.raws|
    ensures i < |q.raws| ==> i + 1 >= q.checks || q.raws[i].Undecodable?
    ensures i == from || i < q.checks
    ensures forall k | from <= k < i :: q.raws[k].Decoded?
    decreases |q.raws| - from
  {
    if from == |q.raws| || from + 1 >= q.checks || q.raws[from].Undecodable? then from else StopsFrom(q, from + 1)
  }

  function Entities(q: Request): seq<Entity>
    requires forall k | 0 <= k < |q.raws| :: q.raws[k].Decoded?
  {
    seq(|q.raws|, i requires 0 <= i < |q.raws| => Prepared(q.raws[i].entity, q.now, q.generated(i)))
  }

  function Create(kind: Kind, t: Table, b: seq<Entity>, canceled: bool, fault: Fault): Created {
    match kind
    case InMemory => MemoryCreate(t, b, canceled)
    case Sqlite => SqliteCreate(t, b, canceled, fault)
  }

  /** What a request does: the new table, the reply, and the ids put in the audit log. */
  datatype Effect = Effect(table: Table, reply: Reply, audited: seq<string>)

  function IDs(b: seq<Entity>): seq<string> { seq(|b|, i requires 0 <= i < |b| => b[i].id) }

  function Handled(kind: Kind, t: Table, q: Request): Effect {
    var i := StopsAt(q);
    if q.checks == 0 then Effect(t, RequestCanceled, [])
    else if i < |q.raws| then
      Effect(t, if i + 1 >= q.checks then RequestCanceled else DecodeError(i), [])
    else
      var b := Entities(q);
      var c := Create(kind, t, b, |q.raws| + 1 >= q.checks, q.fault);
      Effect(c.table, if c.outcome.Success? then Count(|b|) else StorageError(c.outcome.error), IDs(b))
  }

  // ---------------------------------------------------------------------------
  // Properties
  // ---------------------------------------------------------------------------

  /** The ids the caller supplied: the non-empty ones. */
  predicate Supplied(q: Request, i: int) {
    0 <= i < |q.raws| && q.raws[i].Decoded? && q.raws[i].entity.id != ""
  }

  /** The ids generated for a request are non-empty, differ from each other, from supplied ids
      and from the table's. */
  predicate FreshIDs(t: Table, q: Request) {
    && (forall i | 0 <= i < |q.raws| :: q.generated(i) != "" && q.generated(i) !in t)
    && (forall i, j | 0 <= i < j < |q.raws| :: q.generated(i) != q.generated(j))
    && (forall i, j | 0 <= i < |q.raws| && 0 <= j < |q.raws| && Supplied(q, j) :: q.generated(i) != q.raws[j].entity.id)
  }

  /** The caller's own ids do not repeat and are not taken. */
  predicate SuppliedFree(t: Table, q: Request) {
    && (forall i | 0 <= i < |q.raws| :: Supplied(q, i) ==> q.raws[i].entity.id !in t)
    && (forall i, j | 0 <= i < j < |q.raws| ::
          Supplied(q, i) && Supplied(q, j) ==> q.raws[i].entity.id != q.raws[j].entity.id)
  }

  lemma BatchFreeIff(t: Table, q: Request)
    requires FreshIDs(t, q) && forall k | 0 <= k < |q.raws| :: q.raws[k].Decoded?
    ensures Distinct(Entities(q)) && AllNew(t, Entities(q)) <==> SuppliedFree(t, q)
  {
    var b := Entities(q);
    forall i | 0 <= i < |b|
      ensures b[i].id == if Supplied(q, i) then q.raws[i].entity.id else q.generated(i)
    {
    }
  }

  /** The count in a successful reply is the growth of the reported total exactly when the
      caller's own ids are free: neither repeated nor, for SQLite, already present. */
  lemma {:induction false} CountIsGrowthIff(kind: Kind, t: Table, q: Request)
    requires FreshIDs(t, q) && Handled(kind, t, q).reply.Count?
    ensures Handled(kind, t, q).reply.n == |q.raws|
    ensures Total(Handled(kind, t, q).table) - Total(t) == |q.raws| <==> SuppliedFree(t, q)
  {
    BatchFreeIff(t, q);
    CreatedGrowthIff(kind, t, Entities(q), |q.raws| + 1 >= q.checks, q.fault);
  }

  lemma CreatedGrowthIff(kind: Kind, t: Table, b: seq<Entity>, canceled: bool, fault: Fault)
    requires Create(kind, t, b, canceled, fault).outcome.Success?
    ensures Total(Create(kind, t, b, canceled, fault).table) - Total(t) == |b| <==> Distinct(b) && AllNew(t, b)
  {
    match kind
    case InMemory =>
      MemoryGrowthIff(t, b, canceled);
      if b != [] {
        AcceptedIsNew(t, b);
      }
    case Sqlite =>
      SqliteGrowthIff(t, b, canceled, fault);
  }

  lemma WrittenIDs(t: Table, b: seq<Entity>, id: string)
    ensures id in PutAll(t, b) <==> id in t || id in IDs(b)
    ensures id in UpsertAll(t, b) <==> id in t || id in IDs(b)
  {
    PutAllKeepsLast(t, b, id);
    UpsertAllKeepsBirth(t, b, id);
    if id in IDs(b) {
      var i :| 0 <= i < |b| && IDs(b)[i] == id;
      assert b[i].id == id;
    }
    if Last(b, id) >= 0 {
      assert IDs(b)[Last(b, id)] == id;
    }
  }

  lemma CreatedIDs(kind: Kind, t: Table, b: seq<Entity>, canceled: bool, fault: Fault)
    requires Create(kind, t, b, canceled, fault).outcome.Success?
    ensures forall id :: id in Create(kind, t, b, canceled, fault).table <==> id in t || id in IDs(b)
  {
    forall id
      ensures id in Create(kind, t, b, canceled, fault).table <==> id in t || id in IDs(b)
    {
      WrittenIDs(t, b, id);
    }
  }

  /** A request that is not answered with a count leaves the table as it was; one that is adds
      exactly the audited ids. */
  lemma AllOrNothing(kind: Kind, t: Table, q: Request, e: Effect)
    requires e == Handled(kind, t, q)
    ensures !e.reply.Count? ==> e.table == t
    ensures e.reply.Count? ==> forall id :: id in e.table <==> id in t || id in e.audited
  {
    if e.reply.Count? {
      CreatedIDs(kind, t, Entities(q), |q.raws| + 1 >= q.checks, q.fault);
    }
  }

  /** When the loop stops: at the first element that cannot be decoded, or at the first look at the
      context that finds it done, whichever comes first; the look comes before the element. */
  lemma ReplyIff(kind: Kind, t: Table, q: Request, e: Effect)
    requires e == Handled(kind, t, q)
    ensures e.reply.RequestCanceled?
       <==> q.checks == 0 || (q.checks <= |q.raws| && forall k | 0 <= k < q.checks - 1 :: q.raws[k].Decoded?)
    ensures forall i: nat :: e.reply == DecodeError(i)
                   <==> i < |q.raws| && i + 1 < q.checks && q.raws[i].Undecodable?
                        && forall k | 0 <= k < i :: q.raws[k].Decoded?
    ensures Prepares(q) <==> q.checks > |q.raws| && forall k | 0 <= k < |q.raws| :: q.raws[k].Decoded?
    ensures e.reply.Count? || e.reply.StorageError? ==> Prepares(q)
    ensures !Prepares(q) ==> e.audited == []
  {
    var i := StopsAt(q);
    assert i < |q.raws| ==> i + 1 >= q.checks || q.raws[i].Undecodable?;
  }

  /** The id of an element: the caller's own, or the generated one. */
  function IdOf(q: Request, i: nat): string
    requires i < |q.raws| && q.raws[i].Decoded?
  {
    if q.raws[i].entity.id == "" then q.generated(i) else q.raws[i].entity.id
  }

  /** What an answered request has stored: under each id the last element that has it, as the
      caller gave it, updated now, and created when the caller says, or now, unless SQLite
      already had the id. */
  lemma StoredAsAsked(kind: Kind, t: Table, q: Request, e: Effect, i: nat)
    requires e == Handled(kind, t, q) && e.reply.Count? && i < |q.raws| && Prepares(q)
    requires forall j | i < j < |q.raws| :: IdOf(q, j) != IdOf(q, i)
    ensures IdOf(q, i) in e.table
    ensures var row, raw := e.table[IdOf(q, i)], q.raws[i].entity;
            && row.(createdAt := 0) == Entity(IdOf(q, i), raw.name, raw.entityType, raw.observations, 0, q.now)
            && (kind.InMemory? || (IdOf(q, i) !in t && forall j | 0 <= j < i :: IdOf(q, j) != IdOf(q, i)) ==>
                  row.createdAt == if raw.createdAt == 0 then q.now else raw.createdAt)
            && (kind.Sqlite? && IdOf(q, i) in t ==> row.createdAt == t[IdOf(q, i)].createdAt)
  {
    var b, id := Entities(q), IdOf(q, i);
    forall j | 0 <= j < |b| ensures b[j].id == IdOf(q, j) {
      assert b[j] == Prepared(q.raws[j].entity, q.now, q.generated(j));
    }
    assert b[i] == Prepared(q.raws[i].entity, q.now, q.generated(i));
    assert b[i].id == id;
    assert Last(b, id) == i;
    PutAllKeepsLast(t, b, id);
    UpsertAllKeepsBirth(t, b, id);
  }

  lemma LastListed(b: seq<Entity>, id: string)
    ensures Last(b, id) >= 0 ==> id in IDs(b)
  {
    if Last(b, id) >= 0 {
      assert IDs(b)[Last(b, id)] == id;
    }
  }

  /** Rows of other ids stay as they were. */
  lemma OthersUntouched(kind: Kind, t: Table, q: Request, e: Effect, id: string)
    requires e == Handled(kind, t, q) && id in t && id !in e.audited
    ensures id in e.table && e.table[id] == t[id]
  {
    if Prepares(q) {
      var b := Entities(q);
      LastListed(b, id);
      PutAllKeepsLast(t, b, id);
      UpsertAllKeepsBirth(t, b, id);
    }
  }

  /** An accepted request that names one id twice is answered with 2 and stores one entity. */
  lemma CountExceedsGrowth(kind: Kind, e: Entity, q: Request)
    requires !Blank(e.id) && e.id != ""
    requires q.raws == [Decoded(e), Decoded(e)] && q.checks == 10 && q.fault.NoFault?
    ensures Handled(kind, map[], q).reply == Count(2)
    ensures Handled(kind, map[], q).table.Keys == {e.id}
  {
    var b := Entities(q);
    assert b[0].id == e.id && b[1].id == e.id;
    StoredIff(kind, map[], b, false, NoFault);
    WrittenIDs(map[], b, e.id);
    forall id
      ensures id in Handled(kind, map[], q).table <==> id == e.id
    {
      WrittenIDs(map[], b, id);
      assert id in IDs(b) <==> id == IDs(b)[0];
    }
  }

  /** The guards a batch has to pass: no cancellation and no blank id; for the map no id
      already taken, for SQLite no database error before the commit is through. */
  predicate Storable(kind: Kind, t: Table, b: seq<Entity>, canceled: bool, fault: Fault) {
    && !canceled && FirstBlank(b) == |b|
    && match kind
       case InMemory => AllNew(t, b)
       case Sqlite => fault.NoFault? || (fault.FailExec? && fault.at >= |b|)
  }

  lemma StoredIff(kind: Kind, t: Table, b: seq<Entity>, canceled: bool, fault: Fault)
    requires b != []
    ensures Create(kind, t, b, canceled, fault).outcome.Success? <==> Storable(kind, t, b, canceled, fault)
  {
    if FirstRejected(t, b) == |b| {
      AcceptedIsNew(t, b);
    } else {
      assert Check(t, b[FirstRejected(t, b)]) != Success;
    }
  }

  /** The request gets as far as the audit log and the backend. */
  predicate Prepares(q: Request) {
    && q.checks > 0 && StopsAt(q) == |q.raws|
    && forall k | 0 <= k < |q.raws| :: q.raws[k].Decoded?
  }

  /** Creation is audited before the backend is asked, so the audit log can report entities
      that were never stored.  What it reports is in the table afterwards exactly when the
      request never gets that far, or the batch passes the backend's guards, or all its ids
      are in the table already. */
  lemma AuditTruthfulIff(kind: Kind, t: Table, q: Request, e: Effect)
    requires e == Handled(kind, t, q)
    ensures (forall i | 0 <= i < |e.audited| :: e.audited[i] in e.table)
       <==> (Prepares(q) ==>
               var b := Entities(q);
               Storable(kind, t, b, |q.raws| + 1 >= q.checks, q.fault) || forall i | 0 <= i < |b| :: b[i].id in t)
  {
    AllOrNothing(kind, t, q, e);
    if Prepares(q) {
      AuditedIDs(kind, t, q, e);
      if q.raws != [] {
        StoredIff(kind, t, Entities(q), |q.raws| + 1 >= q.checks, q.fault);
      }
    }
  }

  lemma AuditedIDs(kind: Kind, t: Table, q: Request, e: Effect)
    requires e == Handled(kind, t, q) && Prepares(q)
    ensures |e.audited| == |Entities(q)| && forall i | 0 <= i < |e.audited| :: e.audited[i] == Entities(q)[i].id
    ensures e.reply.Count? <==> Create(kind, t, Entities(q), |q.raws| + 1 >= q.checks, q.fault).outcome.Success?
  {
  }

  /** A blank id is audited as created and refused by both backends. */
  lemma AuditReportsUnstored(kind: Kind, q: Request, name: string)
    requires q.raws == [Decoded(Entity(" ", name, "", [], 1, 1))] && q.checks == 10
    ensures Handled(kind, map[], q).audited == [" "] && Handled(kind, map[], q).table == map[]
  {
    var b := Entities(q);
    assert q.raws[0].entity.id == " " && " "[0] == ' ';
    assert b[0].id == " " && Blank(b[0].id);
    assert IDs(b) == [" "];
  }

  // ---------------------------------------------------------------------------
  // The manager
  // ---------------------------------------------------------------------------

  datatype Backend = MemoryStore(memory: MemoryBackend) | SqliteStore(sqlite: SqliteBackend) {
    function Kind(): Kind { if MemoryStore? then InMemory else Sqlite }

    function Objects(): set<object> { if MemoryStore? then {memory} else {sqlite} }

    function Table(): Table
      reads Objects()
    {
      if MemoryStore? then memory.entities else sqlite.table
    }
  }

  class Manager {
    const storage: Backend
    var audited: seq<string>

    constructor (storage: Backend)
      ensures this.storage == storage && audited == []
    {
      this.storage, audited := storage, [];
    }

    method HandleCreateEntities(q: Request) returns (reply: Reply)
      modifies this, storage.Objects()
      ensures var e := Handled(storage.Kind(), old(storage.Table()), q);
              reply == e.reply && storage.Table() == e.table && audited == old(audited) + e.audited
    {
      if q.checks == 0 {
        return RequestCanceled;
      }
      var entities: seq<Entity> := [];
      ghost var stop := StopsAt(q);
      for i := 0 to |q.raws|
        invariant i <= stop && |entities| == i
        invariant forall k | 0 <= k < i :: entities[k] == Prepared(q.raws[k].entity, q.now, q.generated(k))
      {
        var raw := q.raws[i];
        if i + 1 >= q.checks {
          assert stop == i;
          return RequestCanceled;
        }
        if raw.Undecodable? {
          assert stop == i;
          return DecodeError(i);
        }
        var entity := raw.entity;
        if entity.id == "" {
          entity := entity.(id := q.generated(i));
        }
        if entity.createdAt == ZERO_TIME {
          entity := entity.(createdAt := q.now);
        }
        entity := entity.(updatedAt := q.now);
        entities := entities + [entity];
      }
      assert entities == Entities(q);
      for i := 0 to |entities|
        invariant audited == old(audited) + IDs(entities)[..i] && storage.Table() == old(storage.Table())
      {
        audited := audited + [entities[i].id];
      }
      var outcome := Store(entities, |q.raws| + 1 >= q.checks, q.fault);
      match outcome
      case Success => return Count(|entities|);
      case Failure(error) => return StorageError(error);
    }

    /** The call through the backend interface. */
    method Store(batch: seq<Entity>, canceled: bool, fault: Fault) returns (outcome: Outcome)
      modifies storage.Objects()
      ensures Created(storage.Table(), outcome) == Create(storage.Kind(), old(storage.Table()), batch, canceled, fault)
    {
      match storage
      case MemoryStore(m) => outcome := m.CreateEntities(batch, canceled);
      case SqliteStore(s) => outcome := s.CreateEntities(batch, canceled, fault);
    }
  }
}
