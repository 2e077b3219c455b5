/** The statistics both backends report, as a function of the table. */
module EntityStatistics {
  import opened EntityTables
  import opened MapSums

  const ENTITIES := "entities"

  /** The statistics key of a type. */
  function Key(ty: string): (k: string)
    ensures k != ENTITIES && |k| >= 5 && k[5..] == ty
  {
    var k := "type_" + ty;
    assert k[0] == 't' && ENTITIES[0] == 'e';
    k
  }

  function Typed(t: Table, ty: string): set<string> { set id | id in t && t[id].entityType == ty }

  /** How many entities there are of each type; the empty type is not counted. */
  function TypeCounts(t: Table): map<string, int> {
    var types := set id | id in t :: t[id].entityType;
    map ty | ty in types && ty != "" :: |Typed(t, ty)|
  }

  function Prefixed(counts: map<string, int>): map<string, int> {
    map ty | ty in counts :: Key(ty) := counts[ty]
  }

  function Report(total: int, counts: map<string, int>): map<string, int> {
    map[ENTITIES := total] + Prefixed(counts)
  }

  function Statistics(t: Table): map<string, int> { Report(|t|, TypeCounts(t)) }

  /** A statistic read with a default of zero. */
  function Read(stats: map<string, int>): string -> int { k => if k in stats then stats[k] else 0 }

  ghost function Counted(t: Table, keys: set<string>): set<string> {
    set id | id in t && t[id].entityType != "" && Key(t[id].entityType) in keys
  }

  /** Adding one type's key to `keys` adds the entities of that type. */
  lemma CountedAdds(t: Table, keys: set<string>, k: string, ty: string)
    requires ty != "" && k == Key(ty) && k in keys
    ensures Counted(t, keys) == Counted(t, keys - {k}) + Typed(t, ty)
    ensures Counted(t, keys - {k}) !! Typed(t, ty)
  {
    forall id | id in t && Key(t[id].entityType) == k
      ensures t[id].entityType == ty
    {
      assert Key(t[id].entityType)[5..] == k[5..];
    }
  }

  lemma StatisticsOf(t: Table, k: string)
    ensures Statistics(t).Keys - {ENTITIES} == Prefixed(TypeCounts(t)).Keys
    ensures ENTITIES in Statistics(t) && Statistics(t)[ENTITIES] == |t|
    ensures k in Prefixed(TypeCounts(t)) ==>
              Read(Statistics(t))(k) == Prefixed(TypeCounts(t))[k]
  {
  }

  lemma {:induction false} SumCounts(t: Table, keys: set<string>)
    requires keys <= Prefixed(TypeCounts(t)).Keys
    ensures Sum(keys, Read(Statistics(t))) == |Counted(t, keys)|
  {
    if keys != {} {
      var k :| k in keys;
      var ty :| ty in TypeCounts(t) && Key(ty) == k;
      SumRemove(keys, Read(Statistics(t)), k);
      SumCounts(t, keys - {k});
      StatisticsOf(t, k);
      CountedAdds(t, keys, k, ty);
    }
  }

  lemma CountedAll(t: Table)
    ensures Counted(t, Prefixed(TypeCounts(t)).Keys) + Typed(t, "") == t.Keys
    ensures Counted(t, Prefixed(TypeCounts(t)).Keys) !! Typed(t, "")
  {
    forall id | id in t && t[id].entityType != ""
      ensures id in Counted(t, Prefixed(TypeCounts(t)).Keys)
    {
      assert t[id].entityType in TypeCounts(t);
      assert Key(t[id].entityType) in Prefixed(TypeCounts(t));
    }
  }

  /** The total is the sum of the type counts plus the untyped entities. */
  lemma {:induction false} TotalIsSumOfTypes(t: Table)
    ensures var s := Statistics(t);
            ENTITIES in s && s[ENTITIES] == Sum(s.Keys - {ENTITIES}, Read(s)) + |Typed(t, "")|
  {
    var keys := Prefixed(TypeCounts(t)).Keys;
    StatisticsOf(t, "");
    SumCounts(t, keys);
    CountedAll(t);
    assert |t.Keys| == |t|;
  }

  lemma KeyInjective(x: string, y: string)
    requires Key(x) == Key(y)
    ensures x == y
  {
    assert Key(x)[5..] == Key(y)[5..];
  }

  lemma PrefixedAt(counts: map<string, int>, ty: string)
    ensures Key(ty) in Prefixed(counts) <==> ty in counts
    ensures ty in counts ==> Prefixed(counts)[Key(ty)] == counts[ty]
  {
    if x :| x in counts && Key(x) == Key(ty) {
      KeyInjective(x, ty);
    }
  }

  /** Each non-empty type that occurs is listed with the number of its entities, */
  lemma StatisticsExact(t: Table, ty: string)
    ensures var s := Statistics(t);
            && "entities" in s && s["entities"] == |t|
            && ("type_" + ty in s <==> ty != "" && exists id :: id in t && t[id].entityType == ty)
            && ("type_" + ty in s ==> s["type_" + ty] == |set id | id in t && t[id].entityType == ty|)
  {
    assert Key(ty) == "type_" + ty;
    PrefixedAt(TypeCounts(t), ty);
    StatisticsOf(t, Key(ty));
    assert Typed(t, ty) == set id | id in t && t[id].entityType == ty;
  }

  /** and nothing else is listed but the total. */
  lemma StatisticsOnly(t: Table, k: string)
    requires k in Statistics(t) && k != "entities"
    ensures exists id :: id in t && k == "type_" + t[id].entityType
  {
    var ty :| ty in TypeCounts(t) && Key(ty) == k;
    var id :| id in t && t[id].entityType == ty;
    assert k == "type_" + t[id].entityType;
  }

  /** The reported number of entities. */
  function Total(t: Table): (n: int)
    ensures n == |t|
  {
    StatisticsOf(t, "");
    Statistics(t)[ENTITIES]
  }

  /** A batch the map accepts makes the total grow by its length exactly when its ids are all
      different. */
  lemma {:induction false} MemoryGrowthIff(t: Table, b: seq<Entity>, canceled: bool)
    requires MemoryCreate(t, b, canceled).outcome.Success?
    ensures Total(MemoryCreate(t, b, canceled).table) - Total(t) == |b| <==> Distinct(b)
  {
    GrowthIff(t, b);
    if FirstRejected(t, b) == |b| {
      AcceptedIsNew(t, b);
    }
  }

  /** For SQLite they must also be all new. */
  lemma {:induction false} SqliteGrowthIff(t: Table, b: seq<Entity>, canceled: bool, fault: Fault)
    requires SqliteCreate(t, b, canceled, fault).outcome.Success?
    ensures Total(SqliteCreate(t, b, canceled, fault).table) - Total(t) == |b| <==> Distinct(b) && AllNew(t, b)
  {
    GrowthIff(t, b);
    if b != [] {
      assert SqliteCreate(t, b, canceled, fault).table == UpsertAll(t, b);
    }
  }
}
