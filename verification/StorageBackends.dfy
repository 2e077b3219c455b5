/** The two storage backends as objects: a map behind a lock, and a table behind transactions. */
module StorageBackends {
  import opened Options
  import opened EntityTables
  import opened EntityStatistics

  // ---------------------------------------------------------------------------
  // Counting by type, one entity at a time
  // ---------------------------------------------------------------------------

  ghost function Restrict(t: Table, ids: set<string>): Table { map id | id in t && id in ids :: t[id] }

  lemma TypedOneMore(t: Table, ids: set<string>, id: string, ty: string)
    requires id in t && id !in ids
    ensures |Typed(Restrict(t, ids + {id}), ty)| ==
            |Typed(Restrict(t, ids), ty)| + (if t[id].entityType == ty then 1 else 0)
  {
    var before, after := Typed(Restrict(t, ids), ty), Typed(Restrict(t, ids + {id}), ty);
    if t[id].entityType == ty {
      assert after == before + {id};
    } else {
      assert after == before;
    }
  }

  /** A type is listed exactly when it is not empty and some entity has it. */
  lemma Listed(t: Table, ty: string)
    ensures ty in TypeCounts(t) <==> ty != "" && |Typed(t, ty)| > 0
    ensures ty in TypeCounts(t) ==> TypeCounts(t)[ty] == |Typed(t, ty)|
  {
    if |Typed(t, ty)| > 0 {
      var id :| id in Typed(t, ty);
      assert t[id].entityType == ty;
    }
    if ty in TypeCounts(t) {
      var id :| id in t && t[id].entityType == ty;
      assert id in Typed(t, ty);
    }
  }

  lemma CountOneMore(t: Table, ids: set<string>, id: string)
    requires id in t && id !in ids
    ensures var counts, ty := TypeCounts(Restrict(t, ids)), t[id].entityType;
            TypeCounts(Restrict(t, ids + {id})) ==
            if ty == "" then counts else counts[ty := (if ty in counts then counts[ty] else 0) + 1]
  {
    var before, after := Restrict(t, ids), Restrict(t, ids + {id});
    forall ty
      ensures |Typed(after, ty)| == |Typed(before, ty)| + (if t[id].entityType == ty then 1 else 0)
      ensures ty in TypeCounts(before) <==> ty != "" && |Typed(before, ty)| > 0
      ensures ty in TypeCounts(before) ==> TypeCounts(before)[ty] == |Typed(before, ty)|
      ensures ty in TypeCounts(after) <==> ty != "" && |Typed(after, ty)| > 0
      ensures ty in TypeCounts(after) ==> TypeCounts(after)[ty] == |Typed(after, ty)|
    {
      TypedOneMore(t, ids, id, ty);
      Listed(before, ty);
      Listed(after, ty);
    }
  }

  ghost function CountsWithout(t: Table, rest: set<string>): map<string, int> {
    TypeCounts(Restrict(t, t.Keys - rest))
  }

  lemma CountNext(t: Table, rest: set<string>, id: string)
    requires id in rest && rest <= t.Keys
    ensures var counts, ty := CountsWithout(t, rest), t[id].entityType;
            CountsWithout(t, rest - {id}) ==
            if ty == "" then counts else counts[ty := (if ty in counts then counts[ty] else 0) + 1]
  {
    CountOneMore(t, t.Keys - rest, id);
    assert t.Keys - rest + {id} == t.Keys - (rest - {id});
  }

  lemma CountsOfAll(t: Table)
    ensures CountsWithout(t, {}) == TypeCounts(t) && CountsWithout(t, t.Keys) == map[]
  {
    assert Restrict(t, t.Keys - {}) == t;
    assert Restrict(t, t.Keys - t.Keys) == map[];
  }

  lemma PrefixedOneMore(counts: map<string, int>, ty: string, n: int)
    ensures Prefixed(counts[ty := n]) == Prefixed(counts)[Key(ty) := n]
  {
    var left, right := Prefixed(counts[ty := n]), Prefixed(counts)[Key(ty) := n];
    forall k
      ensures k in left <==> k in right
      ensures k in left ==> left[k] == right[k]
    {
      if k in right && k != Key(ty) {
        var x :| x in counts && Key(x) == k;
        assert x in counts[ty := n] && x != ty;
      }
    }
  }

  lemma Merge<K, V>(base: map<K, V>, more: map<K, V>, k: K, v: V)
    ensures base + more[k := v] == (base + more)[k := v]
    ensures base + map[] == base
  {
  }

  lemma ReportOneMore(total: int, counts: map<string, int>, ty: string, n: int)
    ensures Report(total, counts[ty := n]) == Report(total, counts)[Key(ty) := n]
  {
    PrefixedOneMore(counts, ty, n);
    Merge(map[ENTITIES := total], Prefixed(counts), Key(ty), n);
  }

  /** The counts already reported while `rest` is still to come. */
  ghost function Reported(counts: map<string, int>, rest: set<string>): map<string, int> {
    counts - ({""} + rest)
  }

  lemma ReportNext(total: int, counts: map<string, int>, rest: set<string>, ty: string)
    requires ty in rest && rest <= counts.Keys
    ensures Report(total, Reported(counts, rest - {ty})) ==
            if ty == "" then Report(total, Reported(counts, rest))
            else Report(total, Reported(counts, rest))[Key(ty) := counts[ty]]
  {
    if ty == "" {
      assert Reported(counts, rest - {ty}) == Reported(counts, rest);
    } else {
      assert Reported(counts, rest - {ty}) == Reported(counts, rest)[ty := counts[ty]];
      ReportOneMore(total, Reported(counts, rest), ty, counts[ty]);
    }
  }

  lemma ReportEnds(total: int, counts: map<string, int>)
    ensures Reported(counts, {}) == counts - {""}
    ensures Report(total, Reported(counts, counts.Keys)) == map[ENTITIES := total]
  {
    assert Reported(counts, counts.Keys) == map[];
    assert Prefixed(map[]) == map[];
    Merge(map[ENTITIES := total], map[], "", 0);
  }

  /** The entries of `counts` added to the statistics one by one, those of the empty type left
      out. */
  method AddTypes(total: int, counts: map<string, int>) returns (stats: map<string, int>)
    ensures stats == Report(total, counts - {""})
  {
    stats := map[ENTITIES := total];
    var rest := counts.Keys;
    ReportEnds(total, counts);
    while rest != {}
      invariant rest <= counts.Keys && stats == Report(total, Reported(counts, rest))
    {
      var ty :| ty in rest;
      ReportNext(total, counts, rest, ty);
      if ty != "" {
        stats := stats[Key(ty) := counts[ty]];
      }
      rest := rest - {ty};
    }
  }

  // ---------------------------------------------------------------------------
  // Search
  // ---------------------------------------------------------------------------

  /** `matches` says of a text whether it contains the query, ignoring case. */
  predicate Hit(e: Entity, matches: string -> bool) {
    matches(e.name) || exists i :: 0 <= i < |e.observations| && matches(e.observations[i])
  }

  ghost predicate ExactlyOnce(ids: seq<string>, s: set<string>) {
    && (forall i, j | 0 <= i < j < |ids| :: ids[i] != ids[j])
    && (forall id :: id in ids <==> id in s)
  }

  ghost function Hits(t: Table, rest: set<string>, matches: string -> bool): set<string> {
    set id | id in t && id !in rest && Hit(t[id], matches)
  }

  lemma HitsNext(t: Table, rest: set<string>, id: string, matches: string -> bool)
    requires id in rest && rest <= t.Keys
    ensures Hits(t, rest - {id}, matches) == Hits(t, rest, matches) + (if Hit(t[id], matches) then {id} else {})
    ensures id !in Hits(t, rest, matches)
  {
  }

  lemma OnceMore(ids: seq<string>, s: set<string>, id: string)
    requires ExactlyOnce(ids, s) && id !in s
    ensures ExactlyOnce(ids + [id], s + {id})
  {
    var longer := ids + [id];
    forall x
      ensures x in longer <==> x in s + {id}
    {
      assert longer[|ids|] == id;
    }
  }

  class MemoryBackend {
    var entities: Table

    constructor ()
      ensures entities == map[]
    {
      entities := map[];
    }

    method CreateEntities(batch: seq<Entity>, canceled: bool) returns (outcome: Outcome)
      modifies this
      ensures Created(entities, outcome) == MemoryCreate(old(entities), batch, canceled)
    {
      if |batch| == 0 {
        return Success;
      }
      if canceled {
        return Failure(Canceled);
      }
      for i := 0 to |batch|
        invariant entities == old(entities)
        invariant forall k | 0 <= k < i :: Check(entities, batch[k]) == Success
      {
        if Blank(batch[i].id) {
          return Failure(EmptyId);
        }
        if batch[i].id in entities {
          return Failure(AlreadyExists(batch[i].id));
        }
      }
      for i := 0 to |batch|
        invariant entities == PutAll(old(entities), batch[..i])
      {
        assert batch[..i + 1][..i] == batch[..i];
        entities := entities[batch[i].id := batch[i]];
      }
      assert batch[..|batch|] == batch;
      return Success;
    }

    method GetStatistics(canceled: bool) returns (stats: Option<map<string, int>>)
      ensures stats == if canceled then None else Some(Statistics(entities))
    {
      if canceled {
        return None;
      }
      var counts: map<string, int> := map[];
      var rest := entities.Keys;
      CountsOfAll(entities);
      while rest != {}
        invariant rest <= entities.Keys && counts == CountsWithout(entities, rest)
      {
        var id :| id in rest;
        CountNext(entities, rest, id);
        var ty := entities[id].entityType;
        if ty != "" {
          counts := counts[ty := (if ty in counts then counts[ty] else 0) + 1];
        }
        rest := rest - {id};
      }
      assert counts - {""} == counts;
      var all := AddTypes(|entities|, counts);
      return Some(all);
    }

    /** Every hit exactly once, in an unspecified order. */
    method SearchEntities(matches: string -> bool, canceled: bool)
      returns (results: Option<seq<Entity>>, ghost ids: seq<string>)
      ensures results.None? <==> canceled
      ensures !canceled ==>
                && |results.value| == |ids| && (forall i, j | 0 <= i < j < |ids| :: ids[i] != ids[j])
                && forall i | 0 <= i < |ids| :: ids[i] in entities && results.value[i] == entities[ids[i]]
      ensures !canceled ==> forall id | id in entities ::
                var e := entities[id];
                id in ids <==> matches(e.name) || exists i :: 0 <= i < |e.observations| && matches(e.observations[i])
    {
      ids := [];
      if canceled {
        return None, ids;
      }
      var found: seq<Entity> := [];
      var rest := entities.Keys;
      while rest != {}
        invariant rest <= entities.Keys && |found| == |ids|
        invariant ExactlyOnce(ids, Hits(entities, rest, matches))
        invariant forall i | 0 <= i < |ids| :: ids[i] in entities && found[i] == entities[ids[i]]
      {
        var id :| id in rest;
        HitsNext(entities, rest, id, matches);
        OnceMore(ids, Hits(entities, rest, matches), id);
        rest := rest - {id};
        var e := entities[id];
        if matches(e.name) {
          found, ids := found + [e], ids + [id];
          continue;
        }
        for i := 0 to |e.observations|
          invariant forall k | 0 <= k < i :: !matches(e.observations[k])
        {
          if matches(e.observations[i]) {
            found, ids := found + [e], ids + [id];
            break;
          }
        }
      }
      return Some(found), ids;
    }
  }

  class SqliteBackend {
    var table: Table

    constructor ()
      ensures table == map[]
    {
      table := map[];
    }

    /** Rows are written to the transaction's own view, which replaces the table on commit. */
    method CreateEntities(batch: seq<Entity>, canceled: bool, fault: Fault) returns (outcome: Outcome)
      modifies this
      ensures Created(table, outcome) == SqliteCreate(old(table), batch, canceled, fault)
    {
      if |batch| == 0 {
        return Success;
      }
      if canceled || fault.FailBegin? {
        return Failure(Database(Begin));
      }
      var tx := table;
      if fault.FailPrepare? {
        return Failure(Database(Prepare));
      }
      for i := 0 to |batch|
        invariant table == old(table) && tx == UpsertAll(table, batch[..i])
        invariant forall k | 0 <= k < i :: !Blank(batch[k].id)
        invariant fault.FailExec? ==> i <= fault.at
      {
        if Blank(batch[i].id) {
          return Failure(EmptyId);
        }
        if fault == FailExec(i) {
          return Failure(Database(Exec));
        }
        assert batch[..i + 1][..i] == batch[..i];
        tx := Upserted(tx, batch[i]);
      }
      if fault.FailCommit? {
        return Failure(Database(Commit));
      }
      assert batch[..|batch|] == batch;
      table := tx;
      return Success;
    }

    /** The groups come from GROUP BY entity_type, the empty type among them. */
    method GetStatistics(failed: bool) returns (stats: Option<map<string, int>>)
      ensures stats == if failed then None else Some(Statistics(table))
    {
      if failed {
        return None;
      }
      var types := set id | id in table :: table[id].entityType;
      var groups := map ty | ty in types :: |Typed(table, ty)|;
      assert groups - {""} == TypeCounts(table);
      var all := AddTypes(|table|, groups);
      return Some(all);
    }
  }
}
