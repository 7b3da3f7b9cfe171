/** The `Generator` object: three sets of rendered statements that its
    builders add to, the schema of the last `build_ddl`, and the dump that
    writes the sets out in the order tables, alters, triggers. */
module Generation {
  import opened Text
  import opened Ddl

  /** Whether `build_ddl` goes on to build: `None` stands for every falsy
      value the loader can hand back (`''`, `None`, `False`), and an empty
      mapping is falsy as well. */
  predicate Truthy(loaded: Option<Schema>) {
    loaded.Some? && loaded.value != map[]
  }

  /** The whole document `dump` writes, for one enumeration of each set. */
  function Document(tableOrder: seq<string>, alterOrder: seq<string>, triggerOrder: seq<string>): string {
    Concat(tableOrder) + Concat(alterOrder) + Concat(triggerOrder)
  }

  /** The sequence lists exactly the members of the set, each once. */
  predicate Enumerates(xs: seq<string>, items: set<string>) {
    multiset(xs) == multiset(items)
  }

  class Generator {
    var tables: set<string>
    var alters: set<string>
    var triggers: set<string>
    var schema: Option<Schema>

    constructor ()
      ensures tables == {} && alters == {} && triggers == {} && schema == None
    {
      tables := {};
      alters := {};
      triggers := {};
      schema := None;
    }

    /** One `CREATE TABLE` per entity of the schema, added to the tables. */
    method BuildTables()
      requires schema.Some?
      modifies this`tables
      ensures schema == old(schema) && alters == old(alters) && triggers == old(triggers)
      ensures tables == old(tables) + TablesOf(schema.value, schema.value.Keys)
    {
      var s := schema.value;
      var pending := s.Keys;
      ghost var built: set<string> := {};
      while pending != {}
        invariant pending <= s.Keys
        invariant built == TablesOf(s, s.Keys - pending)
        invariant tables == old(tables) + built
        decreases pending
      {
        var entity :| entity in pending;
        var statement := Render(TableOf(entity, s[entity]));
        assert statement == TableTexts(s)[entity];
        TablesOfAdd(s, pending, entity);
        UnionRegroup(old(tables), built, {statement});
        tables := tables + {statement};
        built := built + {statement};
        pending := pending - {entity};
      }
      assert s.Keys - pending == s.Keys;
    }

    /** One update trigger per entity of the schema, added to the triggers. */
    method BuildTriggers()
      requires schema.Some?
      modifies this`triggers
      ensures schema == old(schema) && tables == old(tables) && alters == old(alters)
      ensures triggers == old(triggers) + TriggersOf(schema.value, schema.value.Keys)
    {
      var s := schema.value;
      var pending := s.Keys;
      ghost var built: set<string> := {};
      while pending != {}
        invariant pending <= s.Keys
        invariant built == TriggersOf(s, s.Keys - pending)
        invariant triggers == old(triggers) + built
        decreases pending
      {
        var entity :| entity in pending;
        var statement := Render(TriggerOf(entity));
        assert statement == TriggerTexts(s)[entity];
        TriggersOfAdd(s, pending, entity);
        UnionRegroup(old(triggers), built, {statement});
        triggers := triggers + {statement};
        built := built + {statement};
        pending := pending - {entity};
      }
      assert s.Keys - pending == s.Keys;
    }

    /** A foreign key from `child` to `parent`, added to the alters. */
    method BuildManyToOne(child: string, parent: string)
      modifies this`alters
      ensures alters == old(alters) + {Render(AddForeignKey(child, parent))}
    {
      alters := alters + {Render(AddForeignKey(child, parent))};
    }

    /** A join table between `left` and `right`, added to the tables. */
    method BuildManyToMany(left: string, right: string)
      modifies this`tables
      ensures tables == old(tables) + {Render(JoinTable(left, right))}
    {
      tables := tables + {Render(JoinTable(left, right))};
    }

    /** The guarded body of the relation loop for one declared relation
        `entity -> target`: whatever `Resolve` makes of it is added to the
        tables or the alters, and nothing else changes. */
    method BuildRelation(s: Schema, entity: string, target: string)
      requires entity in s && target in s[entity].relations
      modifies this`tables, this`alters
      ensures tables == old(tables) + JoinTables({Resolve(s, entity, target)})
      ensures alters == old(alters) + ForeignKeys({Resolve(s, entity, target)})
    {
      ghost var r := Resolve(s, entity, target);
      ForeignKeysOne(r);
      JoinTablesOne(r);
      var relationType := s[entity].relations[target];
      if relationType == "one" {
        var back := Reciprocal(s, entity, target);
        if back.Some? && back.value == "many" {
          BuildManyToOne(Lower(entity), Lower(target));
        }
      }
      if relationType == "many" {
        var back := Reciprocal(s, entity, target);
        if back.Some? && back.value == "many" {
          var pair := OrderTables(Lower(entity), Lower(target));
          BuildManyToMany(pair.0, pair.1);
        }
      }
    }

    /** Every declared relation of every entity, handled in the order the
        loops meet them: a `one` answered by `many` becomes a foreign key, a
        `many` answered by `many` a join table, a missing reverse entry is
        passed over. */
    method BuildRelations()
      requires schema.Some?
      modifies this`tables, this`alters
      ensures schema == old(schema) && triggers == old(triggers)
      ensures tables == old(tables) + JoinTables(Resolutions(schema.value, schema.value.Keys))
      ensures alters == old(alters) + ForeignKeys(Resolutions(schema.value, schema.value.Keys))
    {
      var s := schema.value;
      var pending := s.Keys;
      ghost var done: set<Resolution> := {};
      while pending != {}
        invariant pending <= s.Keys
        invariant done == Resolutions(s, s.Keys - pending)
        invariant tables == old(tables) + JoinTables(done)
        invariant alters == old(alters) + ForeignKeys(done)
        decreases pending
      {
        var entity :| entity in pending;
        var targets := s[entity].relations.Keys;
        ghost var seen := done;
        while targets != {}
          invariant targets <= s[entity].relations.Keys
          invariant seen == done + EntityResolutions(s, entity, s[entity].relations.Keys - targets)
          invariant tables == old(tables) + JoinTables(seen)
          invariant alters == old(alters) + ForeignKeys(seen)
          decreases targets
        {
          var target :| target in targets;
          BuildRelation(s, entity, target);
          EntityResolutionsAdd(s, entity, targets, target);
          JoinTablesUnion(seen, {Resolve(s, entity, target)});
          ForeignKeysUnion(seen, {Resolve(s, entity, target)});
          UnionRegroup(old(tables), JoinTables(seen), JoinTables({Resolve(s, entity, target)}));
          UnionRegroup(old(alters), ForeignKeys(seen), ForeignKeys({Resolve(s, entity, target)}));
          seen := seen + {Resolve(s, entity, target)};
          targets := targets - {target};
        }
        assert s[entity].relations.Keys - targets == s[entity].relations.Keys;
        ResolutionsAdd(s, pending, entity);
        done := seen;
        pending := pending - {entity};
      }
      assert s.Keys - pending == s.Keys;
    }

    /** Take the loaded schema and, when it is truthy, build tables, triggers
        and relations in that order; a falsy one leaves every set as it was. */
    method BuildDdl(loaded: Option<Schema>)
      modifies this
      ensures schema == loaded
      ensures Truthy(loaded) ==>
        var out := Generate(loaded.value);
        tables == old(tables) + out.tables && alters == old(alters) + out.alters
        && triggers == old(triggers) + out.triggers
      ensures !Truthy(loaded) ==>
        tables == old(tables) && alters == old(alters) && triggers == old(triggers)
    {
      schema := loaded;
      if Truthy(loaded) {
        ghost var s := loaded.value;
        ghost var out := Generate(s);
        ghost var rs := Resolutions(s, s.Keys);
        ghost var before := tables;
        BuildTables();
        ghost var entityTables := tables;
        BuildTriggers();
        assert triggers == old(triggers) + out.triggers;
        BuildRelations();
        assert tables == entityTables + JoinTables(rs);
        UnionRegroup(before, TablesOf(s, s.Keys), JoinTables(rs));
      }
    }

    /** Forget every statement and the schema. */
    method Clear()
      modifies this
      ensures tables == {} && alters == {} && triggers == {} && schema == None
    {
      alters := {};
      tables := {};
      triggers := {};
      schema := None;
    }

    /** The text `dump` writes: the tables, then the alters, then the
        triggers, each set in whichever order it is enumerated. */
    method Dump() returns (doc: string, tableOrder: seq<string>, alterOrder: seq<string>, triggerOrder: seq<string>)
      ensures Enumerates(tableOrder, tables) && Enumerates(alterOrder, alters) && Enumerates(triggerOrder, triggers)
      ensures doc == Document(tableOrder, alterOrder, triggerOrder)
    {
      tableOrder := ListOf(tables);
      alterOrder := ListOf(alters);
      triggerOrder := ListOf(triggers);
      doc := Concat(tableOrder) + Concat(alterOrder) + Concat(triggerOrder);
    }
  }

  /** Set union regrouped, so that one more batch of statements extends what
      the loop has built so far. */
  lemma UnionRegroup(base: set<string>, built: set<string>, more: set<string>)
    ensures (base + built) + more == base + (built + more)
  {
  }

  /** `[x for x in items]`: the members of a set, one after another, each once. */
  method ListOf(items: set<string>) returns (xs: seq<string>)
    ensures Enumerates(xs, items)
  {
    xs := [];
    var pending := items;
    while pending != {}
      invariant pending <= items
      invariant multiset(xs) + multiset(pending) == multiset(items)
      decreases pending
    {
      var x :| x in pending;
      xs := xs + [x];
      pending := pending - {x};
    }
  }

  // ---------------------------------------------------------------------------
  // The layout of the dumped document

  /** The i-th table lies whole in the first segment of the document. */
  lemma TableInDocument(tableOrder: seq<string>, alterOrder: seq<string>, triggerOrder: seq<string>, i: nat)
    requires i < |tableOrder|
    ensures var doc, k := Document(tableOrder, alterOrder, triggerOrder), |Concat(tableOrder[..i])|;
      && k + |tableOrder[i]| <= |Concat(tableOrder)|
      && doc[k..k + |tableOrder[i]|] == tableOrder[i]
  {
    var after := Concat(alterOrder) + Concat(triggerOrder);
    assert Document(tableOrder, alterOrder, triggerOrder) == "" + Concat(tableOrder) + after;
    ConcatSegment("", tableOrder, after, i);
  }

  /** The i-th alter lies whole after all tables and before any trigger. */
  lemma AlterInDocument(tableOrder: seq<string>, alterOrder: seq<string>, triggerOrder: seq<string>, i: nat)
    requires i < |alterOrder|
    ensures var doc, k := Document(tableOrder, alterOrder, triggerOrder), |Concat(tableOrder)| + |Concat(alterOrder[..i])|;
      && k + |alterOrder[i]| <= |Concat(tableOrder)| + |Concat(alterOrder)|
      && doc[k..k + |alterOrder[i]|] == alterOrder[i]
  {
    ConcatSegment(Concat(tableOrder), alterOrder, Concat(triggerOrder), i);
  }

  /** The i-th trigger lies whole after all tables and alters. */
  lemma TriggerInDocument(tableOrder: seq<string>, alterOrder: seq<string>, triggerOrder: seq<string>, i: nat)
    requires i < |triggerOrder|
    ensures var doc := Document(tableOrder, alterOrder, triggerOrder);
      var k := |Concat(tableOrder)| + |Concat(alterOrder)| + |Concat(triggerOrder[..i])|;
      && k + |triggerOrder[i]| <= |doc|
      && doc[k..k + |triggerOrder[i]|] == triggerOrder[i]
  {
    var before := Concat(tableOrder) + Concat(alterOrder);
    var doc := before + Concat(triggerOrder);
    assert doc + "" == doc;
    ConcatSegment(before, triggerOrder, "", i);
  }

  /** Every member of the set shows up in an enumeration of it. */
  lemma EnumeratedMember(xs: seq<string>, items: set<string>, x: string)
    requires Enumerates(xs, items) && x in items
    ensures exists i :: 0 <= i < |xs| && xs[i] == x
  {
    assert x in multiset(items);
    assert x in multiset(xs);
    assert x in xs;
  }

  // ---------------------------------------------------------------------------
  // Runs of a generator

  /** A fresh generator that builds a schema once holds exactly what the
      schema generates (nothing, for an empty schema); building it a second
      time changes nothing, because the sets absorb repeated statements. */
  method BuildTwice(s: Schema) returns (once: Output, twice: Output)
    ensures once == (if s == map[] then Output({}, {}, {}) else Generate(s))
    ensures twice == once
  {
    var g := new Generator();
    g.BuildDdl(Some(s));
    once := Output(g.tables, g.alters, g.triggers);
    if s != map[] {
      AddedToEmpty(Generate(s), once);
    }
    g.BuildDdl(Some(s));
    twice := Output(g.tables, g.alters, g.triggers);
  }

  /** Statements added to empty sets are just those statements. */
  lemma AddedToEmpty(out: Output, built: Output)
    requires built == Output({} + out.tables, {} + out.alters, {} + out.triggers)
    ensures built == out
  {
    assert {} + out.tables == out.tables && {} + out.alters == out.alters && {} + out.triggers == out.triggers;
  }

  /** After `clear`, a build starts from nothing: nothing of an earlier run
      on another schema is carried over. */
  method ClearThenBuild(first: Schema, second: Schema) returns (result: Output)
    ensures result == (if second == map[] then Output({}, {}, {}) else Generate(second))
  {
    var g := new Generator();
    g.BuildDdl(Some(first));
    g.Clear();
    g.BuildDdl(Some(second));
    result := Output(g.tables, g.alters, g.triggers);
    if second != map[] {
      AddedToEmpty(Generate(second), result);
    }
  }
}
