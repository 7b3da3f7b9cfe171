/** The schema the generator reads, the four kinds of statement it writes, their
    SQL templates, and the rules that decide what each entity and each declared
    relation contributes. */
module Ddl {
  import opened Text

  /** One entity of the schema: its field columns in declaration order (name,
      raw SQL type) and its relations (related entity name to cardinality tag).
      Both keys are always present, as the generator reads them unguarded. */
  datatype Entity = Entity(fields: seq<(string, string)>, relations: map<string, string>)

  /** Entity name to definition, as the schema loader hands it over. */
  type Schema = map<string, Entity>

  /** A statement before rendering. */
  datatype Stmt =
    | CreateTable(table: string, columns: seq<string>)
    | JoinTable(left: string, right: string)
    | AddForeignKey(child: string, parent: string)
    | UpdateTrigger(table: string)

  // Fixed pieces of the templates that the readers below look for.
  const TablePrefix := "CREATE TABLE \""
  const AlterPrefix := "ALTER TABLE \""
  const TriggerPrefix := "CREATE OR REPLACE FUNCTION update_"

  /** The one place where statements become SQL text. Each template is split
      after the first identifier and the delimiter that ends it. */
  function Render(st: Stmt): string {
    match st
    case CreateTable(t, columns) => TablePrefix + t + "\"" + TableTail(t, columns)
    case JoinTable(l, r) => TablePrefix + l + "__" + r + "\" (\n    \"" + l + "_id\"" + JoinTail(l, r)
    case AddForeignKey(c, p) => AlterPrefix + c + "\" ADD \"" + p + "_id\"" + AlterTail(c, p)
    case UpdateTrigger(t) => TriggerPrefix + t + "_timestamp(" + TriggerTail(t)
  }

  function IdColumn(t: string): string { t + "_id serial NOT NULL" }
  function CreatedColumn(t: string): string { t + "_created timestamp NOT NULL DEFAULT now()" }
  function UpdatedColumn(t: string): string { t + "_updated timestamp NOT NULL DEFAULT now()" }

  function TableTail(t: string, columns: seq<string>): string {
    "(" + TableBody(t, columns)
  }

  function TableBody(t: string, columns: seq<string>): string {
    "\n    " + IdColumn(t) + ",\n    " + Join("\n\t\t", columns) + "\n    "
    + CreatedColumn(t) + ",\n    " + UpdatedColumn(t) + ",\n    "
    + "PRIMARY KEY (" + t + "_id)\n);\n\n"
  }

  function JoinTail(l: string, r: string): string {
    " integer NOT NULL,\n"
    + "    \"" + r + "_id\" integer NOT NULL,\n"
    + "    PRIMARY KEY (" + l + "_id, " + r + "_id)\n);\n\n"
  }

  function AlterTail(c: string, p: string): string {
    " integer NOT NULL,\n"
    + "    ADD CONSTRAINT \"fk_" + c + "_" + p + "_id\" FOREIGN KEY (\"" + p + "_id\")\n"
    + "    REFERENCES \"" + p + "\" (\"" + p + "_id\");\n\n"
  }

  /** Function head, body and trigger creation, joined before formatting; the
      text after `update_<t>_timestamp(`. */
  function TriggerTail(t: string): string {
    ")\nRETURNS TRIGGER AS $$\n"
    + "BEGIN\n\tNEW." + t + "_updated = now();\n\tRETURN NEW;\nEND;\n"
    + "$$ language 'plpgsql';\nCREATE TRIGGER \"tr_" + t + "_updated\"\n"
    + "    BEFORE UPDATE ON \"" + t + "\" FOR EACH ROW EXECUTE PROCEDURE update_" + t + "_timestamp();\n\n"
  }

  // ---------------------------------------------------------------------------
  // Columns and tables

  /** The fragment for one field: `<entity>_<field> <type>, `, with the entity
      name lower-cased and the field name and type copied verbatim. */
  function Column(entity: string, field: (string, string)): string {
    Lower(entity) + "_" + field.0 + " " + field.1 + ", "
  }

  /** The column builder: one fragment per field, in declaration order. */
  function Columns(entity: string, fields: seq<(string, string)>): (r: seq<string>)
    ensures |r| == |fields|
    ensures forall i :: 0 <= i < |fields| ==> r[i] == Column(entity, fields[i])
    decreases |fields|
  {
    if |fields| == 0 then [] else [Column(entity, fields[0])] + Columns(entity, fields[1..])
  }

  /** Reads a field fragment back: the field name runs up to the first blank
      after `<table>_`, the type is the rest without the trailing `, `. */
  function ParseColumn(table: string, fragment: string): (r: Option<(string, string)>)
  {
    var n := |table| + 1;
    if |fragment| < n || fragment[..n] != table + "_" then None
    else
      var field := UpTo(fragment[n..], ' ');
      var rest := fragment[n + |field|..];
      if |rest| < 3 || rest[|rest| - 2..] != ", " then None
      else Some((field, rest[1..|rest| - 2]))
  }

  /** Field name and type survive the column builder unchanged: reading a
      fragment back gives the declared pair, for any field name without a blank
      and any type string at all. */
  lemma ColumnRoundTrip(entity: string, field: (string, string))
    requires ' ' !in field.0
    ensures ParseColumn(Lower(entity), Column(entity, field)) == Some(field)
  {
    var t := Lower(entity);
    var frag := Column(entity, field);
    var n := |t| + 1;
    assert frag[..n] == t + "_";
    assert frag[n..] == field.0 + [' '] + (field.1 + ", ");
    UpToDelimited(field.0, ' ', field.1 + ", ");
    var rest := frag[n + |field.0|..];
    assert rest == " " + field.1 + ", ";
    assert rest[1..|rest| - 2] == field.1;
  }

  /** The statement the table builder makes for one entity. */
  function TableOf(entity: string, e: Entity): Stmt {
    CreateTable(Lower(entity), Columns(entity, e.fields))
  }

  /** Every column of a table in order: the serial id, the field columns, the
      two timestamps. The primary-key clause follows them. */
  function ColumnDefinitions(st: Stmt): seq<string>
    requires st.CreateTable?
  {
    [IdColumn(st.table)] + st.columns + [CreatedColumn(st.table), UpdatedColumn(st.table)]
  }

  /** The table of an entity with N fields: it is named `entity.lower()`, has
      N + 3 columns (id first, the N field fragments in declaration order, then
      created and updated), and its text lists them in that order after the
      header, the field fragments separated by a newline and two tabs, closed by
      the single primary key on the id column. */
  lemma TableShape(entity: string, e: Entity)
    ensures var st := TableOf(entity, e); var t := Lower(entity);
      var cols := ColumnDefinitions(st); var n := |e.fields|;
      && st.table == t
      && |cols| == n + 3
      && cols[0] == t + "_id serial NOT NULL"
      && (forall i :: 0 <= i < n ==> cols[i + 1] == Column(entity, e.fields[i]))
      && cols[n + 1] == t + "_created timestamp NOT NULL DEFAULT now()"
      && cols[n + 2] == t + "_updated timestamp NOT NULL DEFAULT now()"
      && Render(st) == TablePrefix + t + "\"" + "(" +
           ("\n    " + cols[0] + ",\n    " + Join("\n\t\t", cols[1..n + 1]) + "\n    "
            + cols[n + 1] + ",\n    " + cols[n + 2] + ",\n    "
            + "PRIMARY KEY (" + t + "_id)\n);\n\n")
  {
    var st := TableOf(entity, e);
    assert ColumnDefinitions(st)[1..|e.fields| + 1] == st.columns;
  }

  /** The name between the quotes after `CREATE TABLE "`. */
  function TableNameOf(text: string): Option<string> {
    if |text| < |TablePrefix| || text[..|TablePrefix|] != TablePrefix then None
    else Some(UpTo(text[|TablePrefix|..], '"'))
  }

  /** Reading the table name back from a rendered table gives the name it was
      rendered with; for a join table, `left__right`. */
  lemma TableNameRoundTrip(st: Stmt)
    requires st.CreateTable? || st.JoinTable?
    requires st.CreateTable? ==> '"' !in st.table
    requires st.JoinTable? ==> '"' !in st.left && '"' !in st.right
    ensures st.CreateTable? ==> TableNameOf(Render(st)) == Some(st.table)
    ensures st.JoinTable? ==> TableNameOf(Render(st)) == Some(st.left + "__" + st.right)
  {
    if st.CreateTable? {
      TableHead(st.table, st.columns);
    } else {
      JoinHead(st.left, st.right, JoinTail(st.left, st.right));
    }
  }

  /** The head of an entity table: the quoted name, then an opening parenthesis. */
  lemma TableHead(t: string, columns: seq<string>)
    requires '"' !in t
    ensures var text := Render(CreateTable(t, columns));
      && TableNameOf(text) == Some(t)
      && |TablePrefix| + |t| + 1 < |text| && text[|TablePrefix| + |t| + 1] == '('
  {
    var body := TableBody(t, columns);
    DelimitedAfterPrefix(TablePrefix, t, '"', "(" + body);
    var text := TablePrefix + t + ['"'] + ("(" + body);
    assert text[|TablePrefix| + |t| + 1] == '(';
  }

  /** A name written right after `prefix` and closed by `c` is read back. */
  lemma DelimitedAfterPrefix(prefix: string, name: string, c: char, tail: string)
    requires c !in name
    ensures var text := prefix + name + [c] + tail;
      |prefix| <= |text| && text[..|prefix|] == prefix
      && UpTo(text[|prefix|..], c) == name
  {
    var text := prefix + name + [c] + tail;
    assert text[|prefix|..] == name + [c] + tail;
    UpToDelimited(name, c, tail);
  }

  /** Two quoted names, the first right after `prefix`, the second right after
      the `mid` text that closes the first, are both read back. */
  lemma QuotedPair(prefix: string, a: string, mid: string, b: string, tail: string)
    requires '"' !in a && '"' !in b && |mid| > 0 && mid[0] == '"'
    ensures var text := prefix + a + mid + b + "\"" + tail;
      var m := |prefix| + |a| + |mid|;
      && m <= |text| && text[..|prefix|] == prefix
      && UpTo(text[|prefix|..], '"') == a
      && text[|prefix| + |a|..m] == mid
      && UpTo(text[m..], '"') == b
  {
    QuotedFirst(prefix, a, mid, b, tail);
    QuotedSecond(prefix, a, mid, b, tail);
  }

  lemma QuotedFirst(prefix: string, a: string, mid: string, b: string, tail: string)
    requires '"' !in a && |mid| > 0 && mid[0] == '"'
    ensures var text := prefix + a + mid + b + "\"" + tail;
      |prefix| <= |text| && text[..|prefix|] == prefix && UpTo(text[|prefix|..], '"') == a
  {
    var text := prefix + a + mid + b + "\"" + tail;
    var rest := mid[1..] + b + "\"" + tail;
    assert text == prefix + a + ['"'] + rest by {
      assert mid == ['"'] + mid[1..];
    }
    DelimitedAfterPrefix(prefix, a, '"', rest);
  }

  lemma QuotedSecond(prefix: string, a: string, mid: string, b: string, tail: string)
    requires '"' !in b
    ensures var text := prefix + a + mid + b + "\"" + tail;
      var m := |prefix| + |a| + |mid|;
      && m <= |text| && text[|prefix| + |a|..m] == mid
      && UpTo(text[m..], '"') == b
  {
    var text := prefix + a + mid + b + "\"" + tail;
    var p2 := prefix + a + mid;
    assert text == p2 + b + ['"'] + tail;
    DelimitedAfterPrefix(p2, b, '"', tail);
    assert text[|prefix| + |a|..|p2|] == p2[|prefix| + |a|..] == mid;
  }

  /** Appending a suffix without a quote to a name without one keeps it so. */
  lemma NoQuoteAppend(x: string, y: string)
    requires '"' !in x && '"' !in y
    ensures '"' !in x + y
  {
    assert forall i :: 0 <= i < |x + y| ==> (x + y)[i] == if i < |x| then x[i] else y[i - |x|];
  }

  /** Reads back both sides of a rendered join table: the first id column
      names the left side, the rest of the table name is the right side. */
  function JoinOf(text: string): Option<(string, string)> {
    match TableNameOf(text)
    case None => None
    case Some(name) =>
      var m := |TablePrefix| + |name| + 9;
      if |text| < m then None
      else SidesOf(name, UpTo(text[m..], '"'))
  }

  /** The two sides of a join table from its name `left__right` and its first
      id column `left_id`. */
  function SidesOf(name: string, column: string): Option<(string, string)> {
    var l := |column| - 3;
    if l < 0 || column[l..] != "_id" || |name| < l + 2 || name[..l] != column[..l] then None
    else Some((column[..l], name[l + 2..]))
  }

  lemma SidesOfJoin(l: string, r: string)
    ensures SidesOf(l + "__" + r, l + "_id") == Some((l, r))
  {
    var name, column := l + "__" + r, l + "_id";
    assert column[|l|..] == "_id" && column[..|l|] == l;
    assert name[..|l|] == l && name[|l| + 2..] == r;
  }

  /** The opening of a join table, between its quoted name and its first
      quoted id column. */
  const JoinMid := "\" (\n    \""

  /** The head of a join table, up to its first id column, read both ways. */
  lemma JoinHead(l: string, r: string, tail: string)
    requires '"' !in l && '"' !in r
    ensures var text := TablePrefix + l + "__" + r + "\" (\n    \"" + l + "_id\"" + tail;
      && '"' !in l + "__" + r
      && TableNameOf(text) == Some(l + "__" + r)
      && JoinOf(text) == Some((l, r))
      && |TablePrefix| + |l + "__" + r| + 1 < |text| && text[|TablePrefix| + |l + "__" + r| + 1] == ' '
  {
    var name := l + "__" + r;
    var column := l + "_id";
    NoQuoteAppend(l, "__");
    NoQuoteAppend(l + "__", r);
    NoQuoteAppend(l, "_id");
    var text := TablePrefix + l + "__" + r + "\" (\n    \"" + l + "_id\"" + tail;
    assert text == TablePrefix + name + JoinMid + column + "\"" + tail;
    JoinParts(name, column, tail);
    JoinSides(l, r, column, tail);
  }

  /** A join head with its two quoted names kept abstract. */
  lemma JoinParts(name: string, column: string, tail: string)
    requires '"' !in name && '"' !in column
    ensures var text := TablePrefix + name + JoinMid + column + "\"" + tail;
      var m := |TablePrefix| + |name| + 9;
      && TableNameOf(text) == Some(name)
      && m <= |text| && UpTo(text[m..], '"') == column
      && text[|TablePrefix| + |name| + 1] == ' '
  {
    QuotedPair(TablePrefix, name, JoinMid, column, tail);
    var text := TablePrefix + name + JoinMid + column + "\"" + tail;
    assert text[|TablePrefix| + |name| + 1] == JoinMid[1];
  }

  /** The side names recovered from the join table name and the first id column. */
  lemma JoinSides(l: string, r: string, column: string, tail: string)
    requires '"' !in l + "__" + r && '"' !in column && column == l + "_id"
    ensures JoinOf(TablePrefix + (l + "__" + r) + JoinMid + column + "\"" + tail) == Some((l, r))
  {
    var name := l + "__" + r;
    var text := TablePrefix + name + JoinMid + column + "\"" + tail;
    JoinParts(name, column, tail);
    JoinOfParts(text, name, column);
    SidesOfJoin(l, r);
  }

  /** `JoinOf` only looks at the table name and the first quoted column. */
  lemma JoinOfParts(text: string, name: string, column: string)
    requires TableNameOf(text) == Some(name)
    requires |TablePrefix| + |name| + 9 <= |text| && UpTo(text[|TablePrefix| + |name| + 9..], '"') == column
    ensures JoinOf(text) == SidesOf(name, column)
  {
    match TableNameOf(text)
    case Some(n) =>
      assert n == name;
  }

  /** Two join tables render alike only if they join the same pair in the same order. */
  lemma JoinTableInjective(l1: string, r1: string, l2: string, r2: string)
    requires '"' !in l1 && '"' !in r1 && '"' !in l2 && '"' !in r2
    requires Render(JoinTable(l1, r1)) == Render(JoinTable(l2, r2))
    ensures l1 == l2 && r1 == r2
  {
    JoinHead(l1, r1, JoinTail(l1, r1));
    JoinHead(l2, r2, JoinTail(l2, r2));
  }

  /** An entity table and a join table never render to the same text, so join
      tables never replace entity tables in the shared set. */
  lemma EntityTableIsNotJoinTable(t: string, columns: seq<string>, l: string, r: string)
    requires '"' !in t && '"' !in l && '"' !in r
    ensures Render(CreateTable(t, columns)) != Render(JoinTable(l, r))
  {
    // with equal names, the character after the closing quote tells them apart
    TableHead(t, columns);
    JoinHead(l, r, JoinTail(l, r));
  }

  // ---------------------------------------------------------------------------
  // Triggers

  /** The statement the trigger builder makes for one entity. */
  function TriggerOf(entity: string): Stmt {
    UpdateTrigger(Lower(entity))
  }

  /** The table a trigger function is named after: what stands between
      `update_` and `_timestamp(`. */
  function TriggerTableOf(text: string): Option<string> {
    if |text| < |TriggerPrefix| || text[..|TriggerPrefix|] != TriggerPrefix then None
    else
      var name := UpTo(text[|TriggerPrefix|..], '(');
      if |name| < 10 || name[|name| - 10..] != "_timestamp" then None
      else Some(name[..|name| - 10])
  }

  /** The trigger text is determined by the lower-cased entity name, and that
      name can be read back from it. */
  lemma TriggerRoundTrip(t: string)
    requires '(' !in t
    ensures TriggerTableOf(Render(UpdateTrigger(t))) == Some(t)
  {
    var name := t + "_timestamp";
    assert '(' !in name by {
      assert forall i :: |t| <= i < |name| ==> name[i] == "_timestamp"[i - |t|];
    }
    assert Render(UpdateTrigger(t)) == TriggerPrefix + name + "(" + TriggerTail(t);
    DelimitedAfterPrefix(TriggerPrefix, name, '(', TriggerTail(t));
    assert name[|name| - 10..] == "_timestamp";
    assert name[..|name| - 10] == t;
  }

  // ---------------------------------------------------------------------------
  // Foreign keys

  /** Reads back child and parent of a rendered `ALTER TABLE`: the child is
      quoted after `ALTER TABLE `, the parent's id column after ` ADD `. */
  function ForeignKeyOf(text: string): Option<(string, string)> {
    var n := |AlterPrefix|;
    if |text| < n || text[..n] != AlterPrefix then None
    else
      var child := UpTo(text[n..], '"');
      var m := n + |child| + 7;
      if |text| < m || text[n + |child|..m] != "\" ADD \"" then None
      else
        var column := UpTo(text[m..], '"');
        if |column| < 3 || column[|column| - 3..] != "_id" then None
        else Some((child, column[..|column| - 3]))
  }

  lemma ForeignKeyRoundTrip(c: string, p: string)
    requires '"' !in c && '"' !in p
    ensures ForeignKeyOf(Render(AddForeignKey(c, p))) == Some((c, p))
  {
    ForeignKeyHead(c, p, AlterTail(c, p));
  }

  lemma ForeignKeyHead(c: string, p: string, tail: string)
    requires '"' !in c && '"' !in p
    ensures ForeignKeyOf(AlterPrefix + c + "\" ADD \"" + p + "_id\"" + tail) == Some((c, p))
  {
    var column := p + "_id";
    NoQuoteAppend(p, "_id");
    var mid := "\" ADD \"";
    var text := AlterPrefix + c + "\" ADD \"" + p + "_id\"" + tail;
    assert text == AlterPrefix + c + mid + column + "\"" + tail;
    QuotedPair(AlterPrefix, c, mid, column, tail);
    assert |mid| == 7;
    assert column[|column| - 3..] == "_id";
    assert column[..|column| - 3] == p;
  }

  /** Two foreign keys render alike only if they join the same child and parent. */
  lemma ForeignKeyInjective(c1: string, p1: string, c2: string, p2: string)
    requires '"' !in c1 && '"' !in p1 && '"' !in c2 && '"' !in p2
    requires Render(AddForeignKey(c1, p1)) == Render(AddForeignKey(c2, p2))
    ensures c1 == c2 && p1 == p2
  {
    ForeignKeyRoundTrip(c1, p1);
    ForeignKeyRoundTrip(c2, p2);
  }

  // ---------------------------------------------------------------------------
  // Relations

  datatype Option<T> = None | Some(value: T)

  /** `_order_tables`: both names lower-cased, then sorted. */
  function OrderTables(table1: string, table2: string): (r: (string, string))
    ensures (r == (Lower(table1), Lower(table2)) || r == (Lower(table2), Lower(table1)))
    ensures !Less(r.1, r.0)
  {
    Sorted2(Lower(table1), Lower(table2))
  }

  /** `schema[target]['relations'][entity]`, or None where Python raises KeyError. */
  function Reciprocal(s: Schema, entity: string, target: string): Option<string> {
    if target in s && entity in s[target].relations then Some(s[target].relations[entity])
    else None
  }

  /** What one declared relation contributes. */
  datatype Resolution =
    | OneToMany(child: string, parent: string)  // a foreign key on the child
    | ManyToMany(left: string, right: string)    // a join table
    | MissingReciprocal                          // KeyError caught: diagnostic, nothing emitted
    | NoEffect                                   // any other tag combination

  /** The relation `entity -> target` as the relation builder treats it. The
      reverse entry is looked up under the names as written; only the
      identifiers that go into statements are lower-cased. A tag other than
      `one` or `many` never looks the reverse entry up. */
  function Resolve(s: Schema, entity: string, target: string): Resolution
    requires entity in s && target in s[entity].relations
  {
    var tag := s[entity].relations[target];
    if tag == "one" then
      match Reciprocal(s, entity, target)
      case None => MissingReciprocal
      case Some(back) => if back == "many" then OneToMany(Lower(entity), Lower(target)) else NoEffect
    else if tag == "many" then
      match Reciprocal(s, entity, target)
      case None => MissingReciprocal
      case Some(back) =>
        if back == "many" then
          var p := OrderTables(Lower(entity), Lower(target)); ManyToMany(p.0, p.1)
        else NoEffect
    else NoEffect
  }

  /** `a` declares the relation `tag` towards `b`. */
  predicate Declares(s: Schema, a: string, b: string, tag: string) {
    a in s && b in s[a].relations && s[a].relations[b] == tag
  }

  /** The resolutions of every relation declared by the entities in `done`. */
  function Resolutions(s: Schema, done: set<string>): set<Resolution> {
    set a, b | a in done && a in s && b in s[a].relations :: Resolve(s, a, b)
  }

  /** The resolutions of the relations of `entity` towards the names in `targets`. */
  function EntityResolutions(s: Schema, entity: string, targets: set<string>): set<Resolution>
    requires entity in s
  {
    set b | b in targets && b in s[entity].relations :: Resolve(s, entity, b)
  }

  /** The statements a set of resolutions adds to the alter set. */
  function ForeignKeys(rs: set<Resolution>): set<string> {
    set r | r in rs && r.OneToMany? :: Render(AddForeignKey(r.child, r.parent))
  }

  /** The statements a set of resolutions adds to the table set. */
  function JoinTables(rs: set<Resolution>): set<string> {
    set r | r in rs && r.ManyToMany? :: Render(JoinTable(r.left, r.right))
  }

  /** One more entity's relations. */
  lemma ResolutionsAdd(s: Schema, pending: set<string>, e: string)
    requires pending <= s.Keys && e in pending
    ensures Resolutions(s, s.Keys - (pending - {e}))
         == Resolutions(s, s.Keys - pending) + EntityResolutions(s, e, s[e].relations.Keys)
  {
    var done := s.Keys - pending;
    assert s.Keys - (pending - {e}) == done + {e};
    var lhs := Resolutions(s, done + {e});
    var rhs := Resolutions(s, done) + EntityResolutions(s, e, s[e].relations.Keys);
    forall r | r in lhs ensures r in rhs {
      var a, b :| a in done + {e} && a in s && b in s[a].relations && r == Resolve(s, a, b);
      if a == e {
        assert r in EntityResolutions(s, e, s[e].relations.Keys);
      } else {
        assert r in Resolutions(s, done);
      }
    }
    forall r | r in rhs ensures r in lhs {
      if r in Resolutions(s, done) {
        var a, b :| a in done && a in s && b in s[a].relations && r == Resolve(s, a, b);
        assert a in done + {e};
      } else {
        var b :| b in s[e].relations && r == Resolve(s, e, b);
        assert e in done + {e};
      }
    }
  }

  /** One more relation of an entity. */
  lemma EntityResolutionsAdd(s: Schema, e: string, pending: set<string>, b: string)
    requires e in s && pending <= s[e].relations.Keys && b in pending
    ensures EntityResolutions(s, e, s[e].relations.Keys - (pending - {b}))
         == EntityResolutions(s, e, s[e].relations.Keys - pending) + {Resolve(s, e, b)}
  {
    assert s[e].relations.Keys - (pending - {b}) == (s[e].relations.Keys - pending) + {b};
  }

  /** The foreign key, if any, of a single resolution. */
  lemma ForeignKeysOne(r: Resolution)
    ensures ForeignKeys({r}) == if r.OneToMany? then {Render(AddForeignKey(r.child, r.parent))} else {}
  {
  }

  /** The join table, if any, of a single resolution. */
  lemma JoinTablesOne(r: Resolution)
    ensures JoinTables({r}) == if r.ManyToMany? then {Render(JoinTable(r.left, r.right))} else {}
  {
  }

  lemma ForeignKeysUnion(a: set<Resolution>, b: set<Resolution>)
    ensures ForeignKeys(a + b) == ForeignKeys(a) + ForeignKeys(b)
  {
  }

  lemma JoinTablesUnion(a: set<Resolution>, b: set<Resolution>)
    ensures JoinTables(a + b) == JoinTables(a) + JoinTables(b)
  {
  }

  // ---------------------------------------------------------------------------
  // What one run over a schema produces

  /** The table text of each entity, by entity name. */
  function TableTexts(s: Schema): (m: map<string, string>)
    ensures m.Keys == s.Keys
  {
    map e | e in s :: Render(TableOf(e, s[e]))
  }

  /** The trigger text of each entity, by entity name. */
  function TriggerTexts(s: Schema): (m: map<string, string>)
    ensures m.Keys == s.Keys
  {
    map e | e in s :: Render(TriggerOf(e))
  }

  /** The tables of the entities in `keys`. */
  function TablesOf(s: Schema, keys: set<string>): set<string>
    requires keys <= s.Keys
  {
    Image(TableTexts(s), keys)
  }

  /** The triggers of the entities in `keys`. */
  function TriggersOf(s: Schema, keys: set<string>): set<string>
    requires keys <= s.Keys
  {
    Image(TriggerTexts(s), keys)
  }

  /** One more entity's table. */
  lemma TablesOfAdd(s: Schema, pending: set<string>, e: string)
    requires pending <= s.Keys && e in pending
    ensures TablesOf(s, s.Keys - (pending - {e})) == TablesOf(s, s.Keys - pending) + {TableTexts(s)[e]}
  {
    assert s.Keys - (pending - {e}) == (s.Keys - pending) + {e};
    ImageAdd(TableTexts(s), s.Keys - pending, e);
  }

  /** One more entity's trigger. */
  lemma TriggersOfAdd(s: Schema, pending: set<string>, e: string)
    requires pending <= s.Keys && e in pending
    ensures TriggersOf(s, s.Keys - (pending - {e})) == TriggersOf(s, s.Keys - pending) + {TriggerTexts(s)[e]}
  {
    assert s.Keys - (pending - {e}) == (s.Keys - pending) + {e};
    ImageAdd(TriggerTexts(s), s.Keys - pending, e);
  }

  datatype Output = Output(tables: set<string>, alters: set<string>, triggers: set<string>)

  /** Everything one run of the three builders adds for schema `s`: a table
      per entity plus the join tables, the foreign keys, a trigger per entity. */
  function Generate(s: Schema): Output {
    var rs := Resolutions(s, s.Keys);
    Output(TablesOf(s, s.Keys) + JoinTables(rs), ForeignKeys(rs), TriggersOf(s, s.Keys))
  }
}
