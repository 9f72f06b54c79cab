/**
 * Worked examples over a two-table schema: authors (table `a`, class `A`) each having many
 * books (table `b`, class `B`) through the `a_id` column, declared as `has` under alias `bs`.
 */
module Scenarios {
  import opened Wrappers
  import opened Php
  import opened Schema
  import opened QueryBuilder
  import opened Resolver

  const AuthorBooks := Relation("bs", "B", "a_id", "", "")

  const Library: Registry := map[
    "A" := ModelClass("a", [FieldMeta("id", "PRI")], Relationships([AuthorBooks], [], [])),
    "B" := ModelClass("b", [FieldMeta("id", "PRI"), FieldMeta("a_id", "MUL")], Relationships([], [], []))
  ]

  const Author1: Row := map["id" := Int(1)]
  const Author2: Row := map["id" := Int(2)]
  const Book10: Row := map["id" := Int(10), "a_id" := Int(1)]
  const Book11: Row := map["id" := Int(11), "a_id" := Int(1)]
  const Book12: Row := map["id" := Int(12), "a_id" := Int(2)]

  /** The database: two authors, three books with `a_id` 1, 1 and 2. */
  function LibraryDb(q: string): Option<seq<Row>> {
    if q == "SELECT * FROM a AS A" then Some([Author1, Author2])
    else if q == "SELECT * FROM b AS bs WHERE bs.a_id = '1' " then Some([Book10, Book11])
    else if q == "SELECT * FROM b AS bs WHERE bs.a_id = '2' " then Some([Book12])
    else None
  }

  /** The two classes as the resolver sees them: both tables have `id` as primary key. */
  const Authors := Target("A", "a", Some("id"), Relationships([AuthorBooks], [], []))
  const Books := Target("B", "b", Some("id"), Relationships([], [], []))

  lemma LibraryTargets()
    ensures Instance(Library, "A") == Authors && Instance(Library, "B") == Books
  {
  }

  /** The text before the author's id in a books query, assembled as the resolver assembles it. */
  lemma BooksQueryPrefix()
    ensures "SELECT * FROM " + "b" + " AS " + "bs" + " WHERE " + "bs" + "." + "a_id" + " = '"
         == "SELECT * FROM b AS bs WHERE bs.a_id = '"
  {
  }

  /** The query each author row sends for its books. */
  lemma BooksQuery(author: Row, id: Value, idText: string)
    requires author == map["id" := id] && !IsEmpty(id) && ToString(id) == idText
    ensures SelectQuery(Books, RecursionArgs(Authors, author, Link(Has, AuthorBooks), Books))
         == "SELECT * FROM b AS bs WHERE bs.a_id = '" + idText + "' "
  {
    assert Lookup(author, "id") == id;
    HasQuery(Authors, author, AuthorBooks, Books);
    var pre := "SELECT * FROM " + "b" + " AS " + "bs" + " WHERE " + "bs" + "." + "a_id" + " = '";
    assert SelectQuery(Books, RecursionArgs(Authors, author, Link(Has, AuthorBooks), Books)) == pre + idText + "' ";
    BooksQueryPrefix();
  }

  /** A table without relationships comes back exactly as fetched. */
  lemma NoRelationsKeepsRows(rows: seq<Row>)
    ensures ExpandRows(LibraryDb, Library, 0, Instance(Library, "B"), rows) == Success(rows)
  {
    if rows != [] {
      NoRelationsKeepsRows(rows[1..]);
      assert [rows[0]] + rows[1..] == rows;
    }
  }

  /** Each author row gains its books under `bs`. */
  lemma AuthorBooksAttached(author: Row, id: Value, idText: string, books: seq<Row>)
    requires author == map["id" := id] && !IsEmpty(id) && ToString(id) == idText
    requires LibraryDb("SELECT * FROM b AS bs WHERE bs.a_id = '" + idText + "' ") == Some(books)
    ensures ExpandRow(LibraryDb, Library, 1, Instance(Library, "A"), author, author, Links(Instance(Library, "A").relationships))
         == Success(author["bs" := Rows(books)])
  {
    LibraryTargets();
    var a := Authors;
    var link := Link(Has, AuthorBooks);
    assert Links(a.relationships) == [link];
    BooksQuery(author, id, idText);
    NoRelationsKeepsRows(books);
    assert Follow(LibraryDb, Library, 1, a, author, link) == Success(books);
  }

  /** The three queries the database answers, written as the resolver builds them. */
  lemma LibraryAnswers()
    ensures LibraryDb("SELECT * FROM a AS A") == Some([Author1, Author2])
    ensures LibraryDb("SELECT * FROM b AS bs WHERE bs.a_id = '" + "1" + "' ") == Some([Book10, Book11])
    ensures LibraryDb("SELECT * FROM b AS bs WHERE bs.a_id = '" + "2" + "' ") == Some([Book12])
  {
    var q2 := "SELECT * FROM b AS bs WHERE bs.a_id = '" + "2" + "' ";
    assert q2 == "SELECT * FROM b AS bs WHERE bs.a_id = '2' ";
    assert q2[39] != "SELECT * FROM b AS bs WHERE bs.a_id = '1' "[39];
    assert q2[14] != "SELECT * FROM a AS A"[14];
  }

  /** Both author rows, each with its books nested under `bs`. */
  lemma AuthorRowsExpanded()
    ensures ExpandRows(LibraryDb, Library, 1, Instance(Library, "A"), [Author1, Author2])
         == Success([Author1["bs" := Rows([Book10, Book11])], Author2["bs" := Rows([Book12])]])
  {
    LibraryAnswers();
    assert ToString(Int(1)) == "1" && ToString(Int(2)) == "2";
    AuthorBooksAttached(Author1, Int(1), "1", [Book10, Book11]);
    AuthorBooksAttached(Author2, Int(2), "2", [Book12]);
    var a := Instance(Library, "A");
    var r1 := Author1["bs" := Rows([Book10, Book11])];
    var r2 := Author2["bs" := Rows([Book12])];
    assert [Author2][1..] == [];
    assert ExpandRows(LibraryDb, Library, 1, a, [Author2]) == Success([r2] + []);
    assert [Author1, Author2][1..] == [Author2];
    assert ExpandRows(LibraryDb, Library, 1, a, [Author1, Author2]) == Success([r1] + ([r2] + []));
    assert [r1] + ([r2] + []) == [r1, r2];
  }

  /** `getAll` on authors: both authors, the first with its two books nested under `bs`, the second with one. */
  lemma AuthorsWithBooks()
    ensures RelatedData(LibraryDb, Library, 1, Instance(Library, "A"), AllRowsCall)
         == Success([Author1["bs" := Rows([Book10, Book11])], Author2["bs" := Rows([Book12])]])
  {
    var q := SelectQuery(Instance(Library, "A"), AllRowsCall);
    assert q == "SELECT * FROM a AS A";
    LibraryAnswers();
    assert LibraryDb(q) == Some([Author1, Author2]);
    AuthorRowsExpanded();
  }

  /** A three-node chain where the first and the third carry an id yields two where clauses, in chain order. */
  lemma WhereClausesInChainOrder(x: NodeView, y: NodeView, z: NodeView)
    requires HasId(x) && !HasId(y) && HasId(z)
    ensures QueryComponents([x, y, z], NoQuery).where == Some([WhereClause(x), WhereClause(z)])
  {
    QueryComponentsContents([x, y, z], NoQuery);
    assert [x, y, z][1..] == [y, z] && [y, z][1..] == [z] && [z][1..] == [];
    assert AllWhereClauses([z]) == [WhereClause(z)];
    assert AllWhereClauses([y, z]) == [WhereClause(z)];
    assert AllWhereClauses([x, y, z]) == [WhereClause(x), WhereClause(z)];
    assert NoQuery.where.GetOr([]) + [WhereClause(x), WhereClause(z)] == [WhereClause(x), WhereClause(z)];
  }
}
