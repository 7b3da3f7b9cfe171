# DDL generator model

A Dafny model of the synthesis core of `Generator` (`generator.py`), a small
Python tool that turns a schema of entities into PostgreSQL DDL. Each entity
has fields (name and raw SQL type) and relations (an entity name mapped to the
tag `one` or `many`). A run of `build_ddl` fills three sets of statement texts:

- **tables**: one `CREATE TABLE` per entity, plus a join table for every
  pair where both sides say `many`;
- **alters**: one `ALTER TABLE … ADD CONSTRAINT … FOREIGN KEY` for every
  relation that says `one` and is answered by `many`;
- **triggers**: one update-timestamp function and trigger per entity.

`dump` writes the tables, then the alters, then the triggers.

The project has five modules:

- `Text` (`text.dfy`): ASCII `str.lower`, Python's `<` on strings,
  `sorted` of two strings, `str.join`, concatenation, and a small scanner
  that reads names back out of rendered text.
- `Ddl` (`ddl.dfy`): the schema, the four statement kinds, and `Render`, the
  one place where the source's templates become text. It also holds the
  column builder, `_order_tables`, and the classification of one declared
  relation (`Resolve`). `Generate` is the reference definition of what one
  run adds to each set.
- `DdlProperties` (`properties.dfy`): what the generator promises about one
  run, stated over `Generate`.
- `Generation` (`generation.dfy`): the `Generator` class. Its set fields are
  updated by loops, and every building method is proved to add exactly its
  part of `Generate`.
- `Scenarios` (`scenarios.dfy`): two small schemas worked through, one
  many-to-many and one pair tagged `many`/`one`.

On these points the code behaves in ways a reader might not expect:

- The reverse entry of a relation is looked up under the entity names **as
  written**. Only the names that go into statements are lower-cased.
- Names that differ only in case are not detected. Lemmas that count
  statements or that recover entities from texts require `WellNamed`: names
  are identifiers and stay distinct after lower-casing.
- A tag other than `one` or `many`, or a pair such as `one`/`one`, is skipped
  silently. Only a missing reverse entry (the caught `KeyError`) prints a
  message.
- In the schema `{Author: {Book: many}, Book: {Author: one}}`, `Book` says
  `one` and `Author` answers `many`. The pair is accepted as one-to-many, with
  the foreign key on `book` (`Scenarios.BooksWithOneAuthorForeignKey`).

## Model

| member | source | states |
|---|---|---|
| Text.Lower | generator.py:42 | the result has the input's length and each character is lower-cased on its own (ASCII letters only) |
| Text.LowerIdempotent | generator.py:60 | lowering a lowered name changes nothing, so `_order_tables` lowering again is harmless |
| Text.LowerKeepsIdentifier | generator.py:42 | a lowered identifier is an identifier without quote, parenthesis or blank |
| Text.LessIrreflexiveAsymmetric | generator.py:60 | Python's `<` on strings is irreflexive and asymmetric |
| Text.LessTrichotomy | generator.py:60 | any two strings are equal or one is `<` the other |
| Text.Sorted2 | generator.py:60 | `sorted([a, b])` is one of the two orders, and its second element is not less than its first |
| Text.Sorted2Symmetric | generator.py:60 | the sorted pair does not depend on the argument order, which is what makes both directions of a many-to-many name the same join table |
| Text.Less | generator.py:60 | definition of Python's `<` on strings, used by `sorted`: lexicographic by code point, a proper prefix being smaller; its properties are stated by `Text.LessIrreflexiveAsymmetric` and `Text.LessTrichotomy` |
| Text.Join | generator.py:42 | definition of `sep.join(parts)`, used with `'\n\t\t'` for the field columns; its use in a table is stated by `Ddl.TableShape` |
| Text.Concat | generator.py:109-111 | definition of `''.join(parts)`; its properties are stated by `Text.ConcatPlacesPart` and the `*InDocument` lemmas |
| Text.ConcatPlacesPart | generator.py:109-111 | each part of `''.join(parts)` appears whole at the offset given by the parts before it |
| Ddl.Render | generator.py:8-29 | definition: the four templates (entity table, join table, foreign key, trigger) filled in, the one place where statements become text; its properties are stated by `Ddl.TableShape`, `Ddl.TableNameRoundTrip`, `Ddl.JoinTableInjective`, `Ddl.EntityTableIsNotJoinTable`, `Ddl.TriggerRoundTrip`, `Ddl.ForeignKeyRoundTrip`, `Ddl.ForeignKeyInjective` and `DdlProperties.JoinTableIsNotForeignKey` |
| Ddl.Column | generator.py:52-53 | definition of one field fragment `<entity.lower()>_<field> <type>, `; stated by `Ddl.Columns` and `Ddl.ColumnRoundTrip` |
| Ddl.TableOf | generator.py:42-43 | definition of the statement for one entity: its lowered name and its field columns; stated by `Ddl.TableShape` |
| Ddl.TriggerOf | generator.py:81-82 | definition of the trigger statement for one entity, named by its lowered name; stated by `Ddl.TriggerRoundTrip` and `DdlProperties.TriggerTextsDiffer` |
| Ddl.Reciprocal | generator.py:65-67 | definition of the reverse lookup, the target's relation tag towards the entity, with `None` where it raises `KeyError`; stated by `DdlProperties.MissingReciprocalExactly` and `DdlProperties.ReciprocalIsCaseSensitive` |
| Ddl.Resolve | generator.py:64-68 | definition of what the guarded body does with one declared relation: a foreign key, a join table, the caught KeyError, or nothing; its four cases are characterised by `DdlProperties.OneToManyExactly`, `DdlProperties.ManyToManyExactly`, `DdlProperties.MissingReciprocalExactly` and `DdlProperties.NoEffectExactly` |
| Ddl.Generate | generator.py:37-82 | definition of what one run adds: a table per entity plus the join tables, the foreign keys, a trigger per entity; the builders are proved to add exactly this (`Generation.Generator.BuildDdl`), and its properties are stated by the `DdlProperties` lemmas |
| Ddl.Columns | generator.py:45-53 | one fragment per field, in declaration order, each `<entity.lower()>_<field> <type>, ` |
| Ddl.ColumnRoundTrip | generator.py:51-53 | parsing a column fragment back gives the declared field name and type, for any name without a blank and any type |
| Ddl.TableShape | generator.py:8-13 | an entity with N fields gets a table named `entity.lower()` with N+3 columns in the order id, fields, created, updated, joined by the template's separators and closed by one primary key on the id |
| Ddl.TableNameRoundTrip | generator.py:8-18 | the name read back from an entity table or a join table is the name it was rendered with (`left__right` for a join) |
| Ddl.JoinTableInjective | generator.py:15-18 | two join tables have the same text only if they join the same pair in the same order |
| Ddl.EntityTableIsNotJoinTable | generator.py:8-18 | an entity table and a join table never have the same text |
| Ddl.TriggerRoundTrip | generator.py:24-29 | the table a trigger is named after is read back from its text |
| Ddl.ForeignKeyRoundTrip | generator.py:20-22 | child and parent are read back from a rendered `ALTER TABLE` |
| Ddl.ForeignKeyInjective | generator.py:20-22 | two foreign keys have the same text only if they have the same child and parent |
| Ddl.OrderTables | generator.py:59-60 | `_order_tables` gives both lowered names, in one order or the other, the smaller first |
| DdlProperties.OneToManyExactly | generator.py:65-66 | a relation becomes a foreign key exactly when it says `one` and the reverse says `many`; then the child is the lowered declaring entity |
| DdlProperties.ManyToManyExactly | generator.py:67-68 | a relation becomes a join exactly when both sides say `many`; both directions give the same pair, with left <= right |
| DdlProperties.MissingReciprocalExactly | generator.py:64-71 | a `one` or `many` relation whose reverse entry is missing is the caught KeyError |
| DdlProperties.NoEffectExactly | generator.py:64-68 | every other tag combination emits nothing |
| DdlProperties.ReciprocalIsCaseSensitive | generator.py:65 | a relation to `book` does not find the reverse entry of an entity named `Book` |
| DdlProperties.InResolutions | generator.py:62-63 | the resolution of every declared relation of every entity is among the run's resolutions |
| DdlProperties.NamesAreQuoteFree | generator.py:42 | the lowered name of a well-named entity holds no quote and no parenthesis |
| DdlProperties.ForeignKeyIff | generator.py:65-66 | the foreign key from `a` to `b` is among the alters exactly when `a` says `one` to `b` and `b` says `many` to `a` |
| DdlProperties.NoReverseForeignKey | generator.py:65-66 | a one-to-many pair gets its foreign key on the `one` side only |
| DdlProperties.JoinTableIff | generator.py:67-68 | the sorted join table of two entities is among the tables exactly when both say `many` to each other, and it is never an alter |
| DdlProperties.JoinTableNotAlter | generator.py:74-77 | a join table text is never a foreign key text |
| DdlProperties.JoinTableEmitted | generator.py:67-68 | when both sides say `many`, the sorted join table is among the tables |
| DdlProperties.JoinTableNotEntityTable | generator.py:43 | the join table of two entities is never one of the entity tables |
| DdlProperties.JoinTableOnlyIfMany | generator.py:67-68 | if the sorted join table of two entities is among the tables, both said `many` to each other |
| DdlProperties.SameJoinTable | generator.py:67-68 | two pairs of entities with the same join table text are the same pair, in one order or the other |
| DdlProperties.JoinTableIsNotForeignKey | generator.py:15-22 | a join table text and a foreign key text always differ |
| DdlProperties.TableTextsDiffer | generator.py:41-43 | distinct entities have distinct table texts |
| DdlProperties.TriggerTextsDiffer | generator.py:80-82 | distinct entities have distinct trigger texts |
| DdlProperties.EntityTablesCount | generator.py:41-43 | a well-named schema gives exactly one entity table per entity |
| DdlProperties.TriggersCount | generator.py:80-82 | a well-named schema gives exactly one trigger per entity |
| Generation.Truthy | generator.py:89 | definition of the truth test on the loaded schema: a loaded schema that is present and non-empty; used by `Generation.Generator.BuildDdl` |
| Generation.Generator.constructor | generator.py:31-35 | a new generator has three empty sets and no schema |
| Generation.Generator.BuildTables | generator.py:37-43 | the tables grow by exactly the table of each entity; nothing else changes |
| Generation.Generator.BuildTriggers | generator.py:79-82 | the triggers grow by exactly the trigger of each entity; nothing else changes |
| Generation.Generator.BuildManyToOne | generator.py:73-74 | the alters grow by exactly the foreign key from child to parent |
| Generation.Generator.BuildManyToMany | generator.py:76-77 | the tables grow by exactly the join table of left and right |
| Generation.Generator.BuildRelation | generator.py:64-71 | one declared relation adds its join table to the tables or its foreign key to the alters, as its resolution says; a caught KeyError adds nothing |
| Generation.Generator.BuildRelations | generator.py:55-71 | the tables grow by the join tables and the alters by the foreign keys of all declared relations; schema and triggers are unchanged |
| Generation.Generator.BuildDdl | generator.py:84-92 | the schema becomes the loaded one; if it is truthy, each set grows by what `Generate` gives for it, and otherwise all three sets are unchanged |
| Generation.Generator.Clear | generator.py:94-101 | all three sets become empty and the schema is reset |
| Generation.Generator.Dump | generator.py:103-111 | the document is an enumeration of the tables, then of the alters, then of the triggers, each set enumerated exactly once |
| Generation.ListOf | generator.py:109-111 | `[x for x in s]` lists every member of the set exactly once |
| Generation.TableInDocument | generator.py:109 | every enumerated table lies whole at its offset in the document |
| Generation.AlterInDocument | generator.py:110 | every enumerated alter lies whole after all tables |
| Generation.TriggerInDocument | generator.py:111 | every enumerated trigger lies whole after all tables and alters |
| Generation.EnumeratedMember | generator.py:109-111 | no member of a set is lost in its enumeration |
| Generation.BuildTwice | generator.py:84-92 | building a schema twice on one generator leaves exactly what building it once did |
| Generation.ClearThenBuild | generator.py:94-101 | after `clear`, a build holds nothing from an earlier run |
| Scenarios.LowerNames | generator.py:42 | `Author` and `Book` lower-case to `author` and `book` |
| Scenarios.TwoEntitiesWellNamed | generator.py:42 | a schema of `Author` and `Book` is well named |
| Scenarios.AuthorAndBookCounts | generator.py:41-43 | such a schema gives two entity tables and two triggers |
| Scenarios.NoOneNoAlters | generator.py:65-66 | a schema with no `one` tag gives no alters |
| Scenarios.AuthorBookOrder | generator.py:59-60 | `author` sorts before `book`, from either argument order |
| Scenarios.AuthorsAndBooksResolutions | generator.py:62-68 | both relations of the many-to-many pair resolve to the join of `author` and `book` |
| Scenarios.AuthorsAndBooksJoin | generator.py:67-68 | that pair gives exactly the join table `author__book` and no foreign key |
| Scenarios.BooksWithOneAuthorResolutions | generator.py:62-71 | in the `many`/`one` schema, one relation is a foreign key on `book` and the other has no effect |
| Scenarios.BooksWithOneAuthorForeignKey | generator.py:65-66 | that schema gives exactly one foreign key, on `book` towards `author`, and no join table |

## Left out

- `load_data` (generator.py:116-134) reads and parses a YAML file. It is
  replaced by the `loaded` parameter of `BuildDdl`. Every falsy result
  (`None`, `False`, an empty document) is `None`, and an empty mapping is
  `Some(map[])`. Both are falsy.
- The file handling of `dump` (generator.py:107-114) is left out: opening,
  writing, closing and the `IOError` branch. `Dump` returns the text it
  would write.
- The `print` diagnostics (generator.py:70-71, 114, 126, 130, 133) are left
  out. The caught `KeyError` is modelled as the `MissingReciprocal`
  resolution, which adds nothing.
- The `__main__` block (generator.py:136-139) is entry-point glue.
- `str.lower` is modelled for ASCII letters only. Unicode case mapping is
  not modelled.
- The order in which Python iterates dictionaries and sets is not modelled.
  The loops pick any remaining key, and `Dump` is specified for every
  enumeration of each set.
- Field order is the YAML mapping's insertion order, modelled as a sequence
  of (name, type) pairs.
- Non-string YAML values (numbers, nested mappings) are not modelled. A
  missing `fields` or `relations` key is not modelled either: the source
  would raise an uncaught `KeyError`. Entities always carry both.
- Generation.Generator.Dump: the contract says that each set is enumerated
  exactly once, not which enumeration Python picks.
