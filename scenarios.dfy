/** Two small schemas worked through a whole run: a many-to-many pair, and a
    pair tagged `many` one way and `one` the other. */
module Scenarios {
  import opened Text
  import opened Ddl
  import opened DdlProperties

  /** Authors and books, each side saying `many` to the other. */
  function AuthorsAndBooks(): Schema {
    map["Author" := Entity([("name", "varchar(100)")], map["Book" := "many"]),
        "Book" := Entity([("title", "varchar(200)")], map["Author" := "many"])]
  }

  /** Authors say `many` to books; books say `one` to authors. */
  function BooksWithOneAuthor(): Schema {
    map["Author" := Entity([], map["Book" := "many"]),
        "Book" := Entity([], map["Author" := "one"])]
  }

  lemma LowerNames()
    ensures Lower("Author") == "author" && Lower("Book") == "book"
  {
    assert Lower("Author") == "author" by {
      var r := Lower("Author");
      assert r[0] == 'a' && r[1] == 'u' && r[2] == 't' && r[3] == 'h' && r[4] == 'o' && r[5] == 'r';
    }
    assert Lower("Book") == "book" by {
      var r := Lower("Book");
      assert r[0] == 'b' && r[1] == 'o' && r[2] == 'o' && r[3] == 'k';
    }
  }

  lemma TwoEntitiesWellNamed(s: Schema)
    requires s.Keys == {"Author", "Book"}
    ensures WellNamed(s)
  {
    LowerNames();
    assert IsIdentifier("Author") by {
      assert forall i :: 0 <= i < 6 ==> IsIdentChar("Author"[i]);
    }
    assert IsIdentifier("Book") by {
      assert forall i :: 0 <= i < 4 ==> IsIdentChar("Book"[i]);
    }
  }

  /** Any schema of the two entities `Author` and `Book` (whatever their
      fields and relations) gives two entity tables and two triggers. */
  lemma AuthorAndBookCounts(s: Schema)
    requires s.Keys == {"Author", "Book"}
    ensures |TablesOf(s, s.Keys)| == 2 && |TriggersOf(s, s.Keys)| == 2
  {
    assert "Author"[0] != "Book"[0];
    assert |{"Author", "Book"}| == 2;
    assert |s| == 2;
    TwoEntitiesWellNamed(s);
    EntityTablesCount(s);
    TriggersCount(s);
  }

  /** Only a `one` tag can give a foreign key: a schema without one has no alters. */
  lemma NoOneNoAlters(s: Schema)
    requires forall a, b :: a in s && b in s[a].relations ==> s[a].relations[b] != "one"
    ensures Generate(s).alters == {}
  {
    var rs := Resolutions(s, s.Keys);
    forall r | r in rs ensures !r.OneToMany? {
      var a, b :| a in s.Keys && a in s && b in s[a].relations && r == Resolve(s, a, b);
      OneToManyExactly(s, a, b);
    }
    assert ForeignKeys(rs) == {};
  }

  /** `author` sorts before `book`, so the join table is named from it. */
  lemma AuthorBookOrder()
    ensures OrderTables(Lower("Author"), Lower("Book")) == ("author", "book")
    ensures OrderTables(Lower("Book"), Lower("Author")) == ("author", "book")
  {
    LowerNames();
    LowerIdempotent("Author");
    LowerIdempotent("Book");
    assert Less("author", "book");
    LessIrreflexiveAsymmetric("author", "book");
  }

  /** Both declared relations of the pair resolve to the same join. */
  lemma AuthorsAndBooksResolutions()
    ensures Resolutions(AuthorsAndBooks(), AuthorsAndBooks().Keys) == {ManyToMany("author", "book")}
  {
    var s := AuthorsAndBooks();
    AuthorBookOrder();
    var rs := Resolutions(s, s.Keys);
    assert Resolve(s, "Author", "Book") == ManyToMany("author", "book");
    assert Resolve(s, "Book", "Author") == ManyToMany("author", "book");
    forall r | r in rs ensures r == ManyToMany("author", "book") {
      var a, b :| a in s.Keys && a in s && b in s[a].relations && r == Resolve(s, a, b);
    }
    InResolutions(s, "Author", "Book");
  }

  /** The pair gets exactly one join table, `author__book`, and no foreign key. */
  lemma AuthorsAndBooksJoin()
    ensures JoinTables(Resolutions(AuthorsAndBooks(), AuthorsAndBooks().Keys)) == {Render(JoinTable("author", "book"))}
    ensures ForeignKeys(Resolutions(AuthorsAndBooks(), AuthorsAndBooks().Keys)) == {}
  {
    AuthorsAndBooksResolutions();
    JoinTablesOne(ManyToMany("author", "book"));
    ForeignKeysOne(ManyToMany("author", "book"));
  }

  /** Of the two declared relations one becomes a foreign key on `book`, the
      other has no effect. */
  lemma BooksWithOneAuthorResolutions()
    ensures Resolutions(BooksWithOneAuthor(), BooksWithOneAuthor().Keys) == {OneToMany("book", "author"), NoEffect}
  {
    var s := BooksWithOneAuthor();
    LowerNames();
    var rs := Resolutions(s, s.Keys);
    assert Resolve(s, "Book", "Author") == OneToMany("book", "author");
    assert Resolve(s, "Author", "Book") == NoEffect;
    forall r | r in rs ensures r == OneToMany("book", "author") || r == NoEffect {
      var a, b :| a in s.Keys && a in s && b in s[a].relations && r == Resolve(s, a, b);
    }
    InResolutions(s, "Book", "Author");
    InResolutions(s, "Author", "Book");
  }

  /** `Book` says `one` and `Author` answers `many`, so the book table gets
      the foreign key to authors; the other direction has no effect, and no
      join table is made. */
  lemma BooksWithOneAuthorForeignKey()
    ensures ForeignKeys(Resolutions(BooksWithOneAuthor(), BooksWithOneAuthor().Keys)) == {Render(AddForeignKey("book", "author"))}
    ensures JoinTables(Resolutions(BooksWithOneAuthor(), BooksWithOneAuthor().Keys)) == {}
  {
    BooksWithOneAuthorResolutions();
    var r1, r2 := OneToMany("book", "author"), NoEffect;
    assert {r1, r2} == {r1} + {r2};
    ForeignKeysUnion({r1}, {r2});
    ForeignKeysOne(r1);
    ForeignKeysOne(r2);
    JoinTablesUnion({r1}, {r2});
    JoinTablesOne(r1);
    JoinTablesOne(r2);
  }
}
