/** What the generator promises about the statements of one run: the
    cardinality rules for relations, one table and one trigger per entity, and
    the case-sensitive reciprocal lookup. */
module DdlProperties {
  import opened Text
  import opened Ddl

  /** Entity names are identifiers and no two of them differ only in case. */
  predicate WellNamed(s: Schema) {
    && (forall e :: e in s ==> IsIdentifier(e))
    && (forall a, b :: a in s && b in s && Lower(a) == Lower(b) ==> a == b)
  }

  // ---------------------------------------------------------------------------
  // One declared relation

  /** `a -> b` gives a foreign key exactly when `a` says `one` and `b` says
      `many` back; the foreign key lives on `a`. */
  lemma OneToManyExactly(s: Schema, a: string, b: string)
    requires a in s && b in s[a].relations
    ensures Resolve(s, a, b).OneToMany? <==> Declares(s, a, b, "one") && Declares(s, b, a, "many")
    ensures Resolve(s, a, b).OneToMany? ==> Resolve(s, a, b) == OneToMany(Lower(a), Lower(b))
  {
  }

  /** `a -> b` gives a join table exactly when both sides say `many`; then
      both directions give the same pair, ordered so that left <= right. */
  lemma ManyToManyExactly(s: Schema, a: string, b: string)
    requires a in s && b in s[a].relations
    ensures Resolve(s, a, b).ManyToMany? <==> Declares(s, a, b, "many") && Declares(s, b, a, "many")
    ensures Resolve(s, a, b).ManyToMany? ==>
      var r := Resolve(s, a, b);
      && (r.left, r.right) == Sorted2(Lower(a), Lower(b))
      && !Less(r.right, r.left)
      && Resolve(s, b, a) == r
  {
    if Resolve(s, a, b).ManyToMany? {
      LowerIdempotent(a);
      LowerIdempotent(b);
      Sorted2Symmetric(Lower(a), Lower(b));
    }
  }

  /** A `one` or `many` relation whose reverse entry cannot be found, under
      the names as written, is the KeyError case: nothing is emitted for it. */
  lemma MissingReciprocalExactly(s: Schema, a: string, b: string)
    requires a in s && b in s[a].relations
    ensures Resolve(s, a, b) == MissingReciprocal <==>
      (Declares(s, a, b, "one") || Declares(s, a, b, "many")) && (b !in s || a !in s[b].relations)
  {
  }

  /** Every other combination (`one`/`one`, `many`/`one`, `one` or `many`
      answered by an unknown tag, or an unknown tag, which is not even
      looked up) emits nothing. */
  lemma NoEffectExactly(s: Schema, a: string, b: string)
    requires a in s && b in s[a].relations
    ensures Resolve(s, a, b) == NoEffect <==>
      var tag := s[a].relations[b];
      || (tag != "one" && tag != "many")
      || (Reciprocal(s, a, b).Some? && Reciprocal(s, a, b).value != "many")
  {
  }

  /** The reverse entry is looked up by the names exactly as written: a
      relation to `book` finds nothing on an entity named `Book`. */
  lemma ReciprocalIsCaseSensitive()
    ensures var s := map["Author" := Entity([], map["book" := "one"]),
                         "Book" := Entity([], map["Author" := "many"])];
      Resolve(s, "Author", "book") == MissingReciprocal
  {
  }

  // ---------------------------------------------------------------------------
  // The statements of a run

  /** The resolutions of a run: one per declared relation. */
  lemma InResolutions(s: Schema, a: string, b: string)
    requires a in s && b in s[a].relations
    ensures Resolve(s, a, b) in Resolutions(s, s.Keys)
  {
  }

  lemma NamesAreQuoteFree(s: Schema, a: string)
    requires WellNamed(s) && a in s
    ensures '"' !in Lower(a) && '(' !in Lower(a)
  {
    LowerKeepsIdentifier(a);
  }

  /** A foreign key from `a` to `b` is emitted exactly when `a` says `one` to
      `b` and `b` says `many` to `a`; in particular the reverse foreign key
      (from `b` to `a`) is never emitted for such a pair. */
  lemma {:induction false} ForeignKeyIff(s: Schema, a: string, b: string)
    requires WellNamed(s) && a in s && b in s
    ensures Render(AddForeignKey(Lower(a), Lower(b))) in Generate(s).alters
            <==> Declares(s, a, b, "one") && Declares(s, b, a, "many")
  {
    var rs := Resolutions(s, s.Keys);
    var text := Render(AddForeignKey(Lower(a), Lower(b)));
    if Declares(s, a, b, "one") && Declares(s, b, a, "many") {
      OneToManyExactly(s, a, b);
      InResolutions(s, a, b);
      assert Resolve(s, a, b) in rs && Resolve(s, a, b).OneToMany?;
    }
    if text in ForeignKeys(rs) {
      var r :| r in rs && r.OneToMany? && Render(AddForeignKey(r.child, r.parent)) == text;
      var x, y :| x in s.Keys && x in s && y in s[x].relations && Resolve(s, x, y) == r;
      OneToManyExactly(s, x, y);
      NamesAreQuoteFree(s, a);
      NamesAreQuoteFree(s, b);
      NamesAreQuoteFree(s, x);
      NamesAreQuoteFree(s, y);
      ForeignKeyInjective(Lower(x), Lower(y), Lower(a), Lower(b));
    }
  }

  /** So a one-to-many pair gets its foreign key on the `one` side only. */
  lemma NoReverseForeignKey(s: Schema, a: string, b: string)
    requires WellNamed(s) && Declares(s, a, b, "one") && Declares(s, b, a, "many")
    ensures Render(AddForeignKey(Lower(a), Lower(b))) in Generate(s).alters
    ensures Render(AddForeignKey(Lower(b), Lower(a))) !in Generate(s).alters
  {
    ForeignKeyIff(s, a, b);
    ForeignKeyIff(s, b, a);
  }

  /** The canonical join table of two entities is among the tables exactly
      when both say `many` to each other, and it is never an alter. Since both
      directions resolve to the same pair, the set holds it once. */
  lemma JoinTableIff(s: Schema, a: string, b: string)
    requires WellNamed(s) && a in s && b in s
    ensures var p := Sorted2(Lower(a), Lower(b));
      && (Render(JoinTable(p.0, p.1)) in Generate(s).tables
          <==> Declares(s, a, b, "many") && Declares(s, b, a, "many"))
      && Render(JoinTable(p.0, p.1)) !in Generate(s).alters
  {
    var p := Sorted2(Lower(a), Lower(b));
    var text := Render(JoinTable(p.0, p.1));
    var rs := Resolutions(s, s.Keys);
    if Declares(s, a, b, "many") && Declares(s, b, a, "many") {
      JoinTableEmitted(s, a, b);
    }
    JoinTableNotEntityTable(s, a, b);
    if text in JoinTables(rs) {
      JoinTableOnlyIfMany(s, a, b);
    }
    JoinTableNotAlter(rs, p.0, p.1);
  }

  lemma JoinTableNotAlter(rs: set<Resolution>, l: string, r: string)
    ensures Render(JoinTable(l, r)) !in ForeignKeys(rs)
  {
    forall x | x in rs && x.OneToMany? ensures Render(AddForeignKey(x.child, x.parent)) != Render(JoinTable(l, r)) {
      JoinTableIsNotForeignKey(l, r, x.child, x.parent);
    }
  }

  lemma JoinTableEmitted(s: Schema, a: string, b: string)
    requires Declares(s, a, b, "many") && Declares(s, b, a, "many")
    ensures var p := Sorted2(Lower(a), Lower(b));
      Render(JoinTable(p.0, p.1)) in JoinTables(Resolutions(s, s.Keys))
  {
    ManyToManyExactly(s, a, b);
    InResolutions(s, a, b);
  }

  lemma JoinTableNotEntityTable(s: Schema, a: string, b: string)
    requires WellNamed(s) && a in s && b in s
    ensures var p := Sorted2(Lower(a), Lower(b));
      Render(JoinTable(p.0, p.1)) !in TablesOf(s, s.Keys)
  {
    var p := Sorted2(Lower(a), Lower(b));
    NamesAreQuoteFree(s, a);
    NamesAreQuoteFree(s, b);
    forall e | e in s ensures Render(TableOf(e, s[e])) != Render(JoinTable(p.0, p.1)) {
      NamesAreQuoteFree(s, e);
      EntityTableIsNotJoinTable(Lower(e), Columns(e, s[e].fields), p.0, p.1);
    }
  }

  lemma JoinTableOnlyIfMany(s: Schema, a: string, b: string)
    requires WellNamed(s) && a in s && b in s
    requires var p := Sorted2(Lower(a), Lower(b));
      Render(JoinTable(p.0, p.1)) in JoinTables(Resolutions(s, s.Keys))
    ensures Declares(s, a, b, "many") && Declares(s, b, a, "many")
  {
    var p := Sorted2(Lower(a), Lower(b));
    var rs := Resolutions(s, s.Keys);
    var r :| r in rs && r.ManyToMany? && Render(JoinTable(r.left, r.right)) == Render(JoinTable(p.0, p.1));
    var x, y :| x in s.Keys && x in s && y in s[x].relations && Resolve(s, x, y) == r;
    ManyToManyExactly(s, x, y);
    SameJoinTable(s, a, b, x, y);
  }

  /** Two pairs of entities with the same canonical join table are the same
      pair, in one order or the other. */
  lemma SameJoinTable(s: Schema, a: string, b: string, x: string, y: string)
    requires WellNamed(s) && a in s && b in s && x in s && y in s
    requires var p, q := Sorted2(Lower(a), Lower(b)), Sorted2(Lower(x), Lower(y));
      Render(JoinTable(q.0, q.1)) == Render(JoinTable(p.0, p.1))
    ensures (x == a && y == b) || (x == b && y == a)
  {
    var p, q := Sorted2(Lower(a), Lower(b)), Sorted2(Lower(x), Lower(y));
    NamesAreQuoteFree(s, a);
    NamesAreQuoteFree(s, b);
    NamesAreQuoteFree(s, x);
    NamesAreQuoteFree(s, y);
    JoinTableInjective(q.0, q.1, p.0, p.1);
    SamePair(s, a, b, x, y);
  }

  /** Lower-casing does not merge entity names, so equal sorted pairs come
      from the same two entities. */
  lemma SamePair(s: Schema, a: string, b: string, x: string, y: string)
    requires WellNamed(s) && a in s && b in s && x in s && y in s
    requires Sorted2(Lower(x), Lower(y)) == Sorted2(Lower(a), Lower(b))
    ensures (x == a && y == b) || (x == b && y == a)
  {
  }

  /** A join table text starts with `CREATE`, a foreign key with `ALTER`. */
  lemma JoinTableIsNotForeignKey(l: string, r: string, c: string, p: string)
    ensures Render(JoinTable(l, r)) != Render(AddForeignKey(c, p))
  {
    assert Render(JoinTable(l, r))[0] == TablePrefix[0];
    assert Render(AddForeignKey(c, p))[0] == AlterPrefix[0];
  }

  // ---------------------------------------------------------------------------
  // One table and one trigger per entity

  /** Distinct entities have distinct table texts. */
  lemma TableTextsDiffer(s: Schema, a: string, b: string)
    requires WellNamed(s) && a in s && b in s && a != b
    ensures Render(TableOf(a, s[a])) != Render(TableOf(b, s[b]))
  {
    NamesAreQuoteFree(s, a);
    NamesAreQuoteFree(s, b);
    TableNameRoundTrip(TableOf(a, s[a]));
    TableNameRoundTrip(TableOf(b, s[b]));
  }

  /** Distinct entities have distinct trigger texts. */
  lemma TriggerTextsDiffer(s: Schema, a: string, b: string)
    requires WellNamed(s) && a in s && b in s && a != b
    ensures Render(TriggerOf(a)) != Render(TriggerOf(b))
  {
    NamesAreQuoteFree(s, a);
    NamesAreQuoteFree(s, b);
    TriggerRoundTrip(Lower(a));
    TriggerRoundTrip(Lower(b));
  }


  lemma TableTextsInjective(s: Schema)
    requires WellNamed(s)
    ensures forall a, b :: a in s.Keys && b in s.Keys && a != b ==> TableTexts(s)[a] != TableTexts(s)[b]
  {
    forall a, b | a in s.Keys && b in s.Keys && a != b ensures TableTexts(s)[a] != TableTexts(s)[b] {
      TableTextsDiffer(s, a, b);
    }
  }

  /** Every entity contributes exactly one `CREATE TABLE`. */
  lemma EntityTablesCount(s: Schema)
    requires WellNamed(s)
    ensures |TablesOf(s, s.Keys)| == |s|
  {
    TableTextsInjective(s);
    ImageCount(TableTexts(s), s.Keys);
  }

  lemma TriggerTextsInjective(s: Schema)
    requires WellNamed(s)
    ensures forall a, b :: a in s.Keys && b in s.Keys && a != b ==> TriggerTexts(s)[a] != TriggerTexts(s)[b]
  {
    forall a, b | a in s.Keys && b in s.Keys && a != b ensures TriggerTexts(s)[a] != TriggerTexts(s)[b] {
      TriggerTextsDiffer(s, a, b);
    }
  }

  /** Every entity contributes exactly one trigger. */
  lemma TriggersCount(s: Schema)
    requires WellNamed(s)
    ensures |TriggersOf(s, s.Keys)| == |s|
  {
    TriggerTextsInjective(s);
    ImageCount(TriggerTexts(s), s.Keys);
  }
}
