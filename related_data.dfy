/**
 * `getRelatedData`: fetch the rows of one model, then, row by row, fetch the rows of every
 * related model along the declared relationships and attach them under the relation's alias.
 * The database is an oracle from query text to the fetched rows, or to nothing when the query
 * fails. The source has no guard against cyclic relationships, so the recursion carries
 * `fuel`: the number of relationship hops it may still take.
 */
module Resolver {
  import opened Wrappers
  import opened Php
  import opened Schema

  datatype Error = QueryFailed(query: string) | UnknownModel(name: string) | DepthExhausted | BadArgumentCount(count: nat)

  /** `$db->query($q)->fetchAll(PDO::FETCH_ASSOC)`; `None` is a failed query. */
  type Db = string -> Option<seq<Row>>

  /** What `getRelatedData` reads of the model instance it queries. */
  datatype Target = Target(className: string, tableName: string, primaryKey: Option<string>, relationships: Relationships)

  /** The instance `getModel($name)` stands for: the named class with the primary key its constructor finds. */
  function Instance(reg: Registry, name: string): Target
    requires name in reg
  {
    Target(name, reg[name].tableName, PrimaryKey(reg[name].fieldList), reg[name].relationships)
  }

  /** The arguments after `$parentModel`: `$id`, `$key`, `$parentAlias`, `$linkTable`, `$remoteFK` (NULL as ""). */
  datatype Call = Call(id: Value, key: string, alias: string, linkTable: string, remoteFK: string)

  /** The arguments `getAll` passes: every default. */
  const AllRowsCall := Call(Null, "id", "", "", "")

  /** The arguments `getOne` passes: the id, with the default key 'id'. */
  function OneRowCall(id: Value): Call {
    Call(id, "id", "", "", "")
  }

  /** The table alias: the given one, or the class name when it is empty. */
  function AliasOf(t: Target, alias: string): string {
    if IsEmptyString(alias) then t.className else alias
  }

  function SelectHead(t: Target, alias: string): string {
    "SELECT * FROM " + t.tableName + " AS " + AliasOf(t, alias)
  }

  /** The query text `getRelatedData` sends. */
  function SelectQuery(t: Target, c: Call): (q: string)
    ensures SelectHead(t, c.alias) <= q
    ensures IsEmpty(c.id) && IsEmptyString(c.linkTable) ==> q == SelectHead(t, c.alias)
  {
    var head := SelectHead(t, c.alias);
    var joined := if IsEmptyString(c.linkTable) then head else head + ", " + c.linkTable;
    var filtered := if IsEmpty(c.id) then joined else joined + " WHERE " + c.key + " = '" + ToString(c.id) + "' ";
    if IsEmptyString(c.linkTable) then filtered else filtered + " AND " + PkText(t.primaryKey) + " = " + c.remoteFK
  }

  /**
   * The arguments of the recursive call for one relationship of a fetched row.
   * has: the related rows whose `alias.fk` is this row's id;
   * belongsTo: the related row whose primary key is this row's `fk` column;
   * hasAndBelongsToMany: the related rows reached through `linkTable.fk` = this row's id.
   */
  function RecursionArgs(t: Target, row: Row, l: Link, related: Target): Call {
    var rowID := Lookup(row, PkText(t.primaryKey));
    match l.kind
    case Has => Call(rowID, l.rel.alias + "." + l.rel.fk, l.rel.alias, "", "")
    case BelongsTo => Call(Lookup(row, l.rel.fk), l.rel.alias + "." + PkText(related.primaryKey), l.rel.alias, "", "")
    case HasAndBelongsToMany =>
      Call(rowID, l.rel.linkTable + "." + l.rel.fk, l.rel.alias, l.rel.linkTable, l.rel.linkTable + "." + l.rel.remoteFK)
  }

  /** The result of `getRelatedData(t, c...)` with `fuel` hops left. */
  function RelatedData(db: Db, reg: Registry, fuel: nat, t: Target, c: Call): Result<seq<Row>, Error>
    decreases fuel, 3
  {
    var q := SelectQuery(t, c);
    match db(q)
    case None => Failure(QueryFailed(q))
    case Some(rows) => ExpandRows(db, reg, fuel, t, rows)
  }

  /** Every fetched row, in order, with its related data attached; the first failure aborts. */
  function ExpandRows(db: Db, reg: Registry, fuel: nat, t: Target, rows: seq<Row>): Result<seq<Row>, Error>
    decreases fuel, 2, |rows|
  {
    if rows == [] then Success([])
    else
      match ExpandRow(db, reg, fuel, t, rows[0], rows[0], Links(t.relationships))
      case Failure(e) => Failure(e)
      case Success(r0) =>
        match ExpandRows(db, reg, fuel, t, rows[1..])
        case Failure(e) => Failure(e)
        case Success(rest) => Success([r0] + rest)
  }

  /**
   * `acc` with the data of each relationship in `links` attached under its alias, in order.
   * The arguments are always computed from the row as fetched (`row`), not from `acc`.
   */
  function ExpandRow(db: Db, reg: Registry, fuel: nat, t: Target, row: Row, acc: Row, links: seq<Link>): Result<Row, Error>
    decreases fuel, 1, |links|
  {
    if links == [] then Success(acc)
    else
      match Follow(db, reg, fuel, t, row, links[0])
      case Failure(e) => Failure(e)
      case Success(sub) => ExpandRow(db, reg, fuel, t, row, acc[links[0].rel.alias := Rows(sub)], links[1..])
  }

  /** The recursive call for one relationship: look the model up, then descend one hop. */
  function Follow(db: Db, reg: Registry, fuel: nat, t: Target, row: Row, l: Link): Result<seq<Row>, Error>
    decreases fuel, 0
  {
    if l.rel.model !in reg then Failure(UnknownModel(l.rel.model))
    else if fuel == 0 then Failure(DepthExhausted)
    else
      var related := Instance(reg, l.rel.model);
      RelatedData(db, reg, fuel - 1, related, RecursionArgs(t, row, l, related))
  }

  /** `done` followed by the rows still to come, unless those failed. */
  function Prepend(done: seq<Row>, r: Result<seq<Row>, Error>): Result<seq<Row>, Error> {
    match r
    case Failure(e) => Failure(e)
    case Success(rest) => Success(done + rest)
  }

  /** Attaching along `xs + ys` is attaching along `xs`, then along `ys` if that succeeded. */
  lemma {:induction false} ExpandRowAppend(db: Db, reg: Registry, fuel: nat, t: Target, row: Row, acc: Row, xs: seq<Link>, ys: seq<Link>)
    ensures ExpandRow(db, reg, fuel, t, row, acc, xs + ys)
         == match ExpandRow(db, reg, fuel, t, row, acc, xs)
            case Failure(e) => Failure(e)
            case Success(a) => ExpandRow(db, reg, fuel, t, row, a, ys)
    decreases |xs|
  {
    if xs == [] {
      assert xs + ys == ys;
    } else {
      assert (xs + ys)[0] == xs[0] && (xs + ys)[1..] == xs[1..] + ys;
      match Follow(db, reg, fuel, t, row, xs[0]) {
        case Failure(_) =>
        case Success(sub) => ExpandRowAppend(db, reg, fuel, t, row, acc[xs[0].rel.alias := Rows(sub)], xs[1..], ys);
      }
    }
  }

  /** `getRelatedData`: build the query, run it (a failed query is the exception), then expand the fetched rows. */
  method GetRelatedData(db: Db, reg: Registry, fuel: nat, t: Target, c: Call) returns (r: Result<seq<Row>, Error>)
    ensures r == RelatedData(db, reg, fuel, t, c)
    decreases fuel, 4
  {
    var query := SelectQuery(t, c);

    var result := db(query);
    if result.None? {
      return Failure(QueryFailed(query));
    }
    r := AttachToRows(db, reg, fuel, t, result.value);
  }

  /**
   * `foreach ($tmp as $rowKey => $row)`: every fetched row in `$tmp` is replaced in place by the
   * row with its related data attached, computed from the row as fetched; the first failure aborts.
   */
  method AttachToRows(db: Db, reg: Registry, fuel: nat, t: Target, rows: seq<Row>) returns (r: Result<seq<Row>, Error>)
    ensures r == ExpandRows(db, reg, fuel, t, rows)
    decreases fuel, 3
  {
    var tmp := rows;
    PrependNothing(ExpandRows(db, reg, fuel, t, rows));
    assert rows[0..] == rows && tmp[..0] == [];

    for i := 0 to |rows|
      invariant |tmp| == |rows| && tmp[i..] == rows[i..]
      invariant ExpandRows(db, reg, fuel, t, rows) == Prepend(tmp[..i], ExpandRows(db, reg, fuel, t, rows[i..]))
    {
      ExpandRowsAt(db, reg, fuel, t, rows, i);
      assert tmp[i] == rows[i];
      var expanded := AttachAll(db, reg, fuel, t, rows[i], tmp[i]);
      if expanded.Failure? {
        return Failure(expanded.error);
      }
      PrependAppend(tmp[..i], expanded.value, ExpandRows(db, reg, fuel, t, rows[i + 1..]));
      ghost var done := tmp[..i];
      tmp := tmp[i := expanded.value];
      assert tmp[..i + 1] == done + [expanded.value];
      assert tmp[i + 1..] == rows[i + 1..];
    }
    assert tmp[..|rows|] == tmp && rows[|rows|..] == [];
    assert tmp + [] == tmp;
    r := Success(tmp);
  }

  /** Expanding the rows from `i` on is expanding row `i`, then the rows after it. */
  lemma ExpandRowsAt(db: Db, reg: Registry, fuel: nat, t: Target, rows: seq<Row>, i: nat)
    requires i < |rows|
    ensures ExpandRows(db, reg, fuel, t, rows[i..])
         == match ExpandRow(db, reg, fuel, t, rows[i], rows[i], Links(t.relationships))
            case Failure(e) => Failure(e)
            case Success(r0) => Prepend([r0], ExpandRows(db, reg, fuel, t, rows[i + 1..]))
  {
    assert rows[i..][0] == rows[i] && rows[i..][1..] == rows[i + 1..];
  }

  lemma PrependNothing(r: Result<seq<Row>, Error>)
    ensures Prepend([], r) == r
  {
    match r {
      case Failure(_) =>
      case Success(rest) => assert [] + rest == rest;
    }
  }

  /** Prepending `done` to `[x]` prepended to the rest is prepending `done + [x]`. */
  lemma PrependAppend(done: seq<Row>, x: Row, r: Result<seq<Row>, Error>)
    ensures Prepend(done, Prepend([x], r)) == Prepend(done + [x], r)
  {
    match r {
      case Failure(_) =>
      case Success(rest) => assert done + ([x] + rest) == (done + [x]) + rest;
    }
  }

  /** The body of `foreach ($tmp as $rowKey => $row)`: the has, belongsTo and HABTM loops in turn. */
  method AttachAll(db: Db, reg: Registry, fuel: nat, t: Target, row: Row, acc: Row) returns (r: Result<Row, Error>)
    ensures r == ExpandRow(db, reg, fuel, t, row, acc, Links(t.relationships))
    decreases fuel, 2
  {
    var rels := t.relationships;
    ExpandRowAppend(db, reg, fuel, t, row, acc, Tag(Has, rels.has), Tag(BelongsTo, rels.belongsTo) + Tag(HasAndBelongsToMany, rels.habtm));
    assert Links(rels) == Tag(Has, rels.has) + (Tag(BelongsTo, rels.belongsTo) + Tag(HasAndBelongsToMany, rels.habtm));
    var afterHas := AttachRelated(db, reg, fuel, t, row, acc, Has, rels.has);
    if afterHas.Failure? {
      return Failure(afterHas.error);
    }
    ExpandRowAppend(db, reg, fuel, t, row, afterHas.value, Tag(BelongsTo, rels.belongsTo), Tag(HasAndBelongsToMany, rels.habtm));
    var afterBelongsTo := AttachRelated(db, reg, fuel, t, row, afterHas.value, BelongsTo, rels.belongsTo);
    if afterBelongsTo.Failure? {
      return Failure(afterBelongsTo.error);
    }
    r := AttachRelated(db, reg, fuel, t, row, afterBelongsTo.value, HasAndBelongsToMany, rels.habtm);
  }

  /**
   * One of the three `foreach ($parentModel->relationships[kind] ...)` loops over a row:
   * each relation's related data is stored under its alias, in declaration order.
   */
  method AttachRelated(db: Db, reg: Registry, fuel: nat, t: Target, row: Row, acc: Row, kind: Kind, rels: seq<Relation>)
    returns (r: Result<Row, Error>)
    ensures r == ExpandRow(db, reg, fuel, t, row, acc, Tag(kind, rels))
    decreases fuel, 1
  {
    var cur := acc;
    for j := 0 to |rels|
      invariant ExpandRow(db, reg, fuel, t, row, acc, Tag(kind, rels)) == ExpandRow(db, reg, fuel, t, row, cur, Tag(kind, rels)[j..])
    {
      var l := Link(kind, rels[j]);
      assert Tag(kind, rels)[j..][0] == l && Tag(kind, rels)[j..][1..] == Tag(kind, rels)[j + 1..];
      var sub := FollowRelation(db, reg, fuel, t, row, l);
      if sub.Failure? {
        return Failure(sub.error);
      }
      cur := cur[rels[j].alias := Rows(sub.value)];
    }
    r := Success(cur);
  }

  /** One relationship of one row: `getModel`, then the recursive `getRelatedData` call. */
  method FollowRelation(db: Db, reg: Registry, fuel: nat, t: Target, row: Row, l: Link) returns (r: Result<seq<Row>, Error>)
    ensures r == Follow(db, reg, fuel, t, row, l)
    decreases fuel, 0
  {
    if l.rel.model !in reg {
      return Failure(UnknownModel(l.rel.model));
    }
    if fuel == 0 {
      return Failure(DepthExhausted);
    }
    var related := Instance(reg, l.rel.model);
    r := GetRelatedData(db, reg, fuel - 1, related, RecursionArgs(t, row, l, related));
  }

  // Properties of the resolver

  /** The aliases `links` attach under. */
  function Aliases(links: seq<Link>): set<string> {
    set j | 0 <= j < |links| :: links[j].rel.alias
  }

  /** No later relation in `links` reuses the alias of relation `j`, so its data is what stays under that key. */
  ghost predicate LastWithAlias(links: seq<Link>, j: nat)
    requires j < |links|
  {
    forall k :: j < k < |links| ==> links[k].rel.alias != links[j].rel.alias
  }

  /**
   * `out` is `acc` with the related data of every relation in `links` attached: the columns of
   * `acc` that no alias shadows are kept, one key per alias is added, and under each alias
   * stands the result of that relation's recursive call (the last one, when aliases repeat).
   */
  ghost predicate AttachedAlong(db: Db, reg: Registry, fuel: nat, t: Target, row: Row, acc: Row, links: seq<Link>, out: Row) {
    && out.Keys == acc.Keys + Aliases(links)
    && (forall k :: k in acc && k !in Aliases(links) ==> out[k] == acc[k])
    && (forall j :: 0 <= j < |links| ==>
          && links[j].rel.model in reg && fuel > 0
          && Follow(db, reg, fuel, t, row, links[j]).Success?)
    && (forall j :: 0 <= j < |links| && LastWithAlias(links, j) ==>
          out[links[j].rel.alias] == Rows(Follow(db, reg, fuel, t, row, links[j]).value))
  }

  lemma AliasesCons(links: seq<Link>)
    requires links != []
    ensures Aliases(links) == {links[0].rel.alias} + Aliases(links[1..])
  {
    forall a | a in Aliases(links) ensures a in {links[0].rel.alias} + Aliases(links[1..]) {
      var j :| 0 <= j < |links| && links[j].rel.alias == a;
      if j > 0 { assert links[1..][j - 1] == links[j]; }
    }
    forall a | a in Aliases(links[1..]) ensures a in Aliases(links) {
      var j :| 0 <= j < |links[1..]| && links[1..][j].rel.alias == a;
      assert links[j + 1] == links[1..][j];
    }
  }

  /** A successful `ExpandRow` attached every relation's data to the row, as `AttachedAlong` says. */
  lemma ExpandRowAttaches(db: Db, reg: Registry, fuel: nat, t: Target, row: Row, acc: Row, links: seq<Link>)
    requires ExpandRow(db, reg, fuel, t, row, acc, links).Success?
    ensures AttachedAlong(db, reg, fuel, t, row, acc, links, ExpandRow(db, reg, fuel, t, row, acc, links).value)
  {
    ExpandRowKeys(db, reg, fuel, t, row, acc, links);
    ExpandRowFollows(db, reg, fuel, t, row, acc, links);
    ExpandRowValues(db, reg, fuel, t, row, acc, links);
  }

  lemma {:induction false} ExpandRowKeys(db: Db, reg: Registry, fuel: nat, t: Target, row: Row, acc: Row, links: seq<Link>)
    requires ExpandRow(db, reg, fuel, t, row, acc, links).Success?
    ensures var out := ExpandRow(db, reg, fuel, t, row, acc, links).value;
      && out.Keys == acc.Keys + Aliases(links)
      && forall k :: k in acc && k !in Aliases(links) ==> out[k] == acc[k]
    decreases |links|
  {
    if links != [] {
      var l := links[0];
      var sub := Follow(db, reg, fuel, t, row, l).value;
      ExpandRowKeys(db, reg, fuel, t, row, acc[l.rel.alias := Rows(sub)], links[1..]);
      AliasesCons(links);
    }
  }

  lemma {:induction false} ExpandRowFollows(db: Db, reg: Registry, fuel: nat, t: Target, row: Row, acc: Row, links: seq<Link>)
    requires ExpandRow(db, reg, fuel, t, row, acc, links).Success?
    ensures forall j :: 0 <= j < |links| ==>
      && links[j].rel.model in reg && fuel > 0
      && Follow(db, reg, fuel, t, row, links[j]).Success?
    decreases |links|
  {
    if links != [] {
      var l := links[0];
      var rest := links[1..];
      var r0 := Follow(db, reg, fuel, t, row, l);
      assert r0.Success?;
      ExpandRowFollows(db, reg, fuel, t, row, acc[l.rel.alias := Rows(r0.value)], rest);
      forall j | 0 <= j < |links|
        ensures links[j].rel.model in reg && fuel > 0 && Follow(db, reg, fuel, t, row, links[j]).Success?
      {
        if j > 0 { assert links[j] == rest[j - 1]; }
      }
    }
  }

  lemma {:induction false} ExpandRowValues(db: Db, reg: Registry, fuel: nat, t: Target, row: Row, acc: Row, links: seq<Link>)
    requires ExpandRow(db, reg, fuel, t, row, acc, links).Success?
    ensures var out := ExpandRow(db, reg, fuel, t, row, acc, links).value;
      forall j :: 0 <= j < |links| && LastWithAlias(links, j) ==>
        && Follow(db, reg, fuel, t, row, links[j]).Success?
        && links[j].rel.alias in out
        && out[links[j].rel.alias] == Rows(Follow(db, reg, fuel, t, row, links[j]).value)
    decreases |links|
  {
    if links != [] {
      var out := ExpandRow(db, reg, fuel, t, row, acc, links).value;
      var l := links[0];
      var rest := links[1..];
      var r0 := Follow(db, reg, fuel, t, row, l);
      var acc' := acc[l.rel.alias := Rows(r0.value)];
      assert out == ExpandRow(db, reg, fuel, t, row, acc', rest).value;
      ExpandRowValues(db, reg, fuel, t, row, acc', rest);
      forall j | 0 <= j < |links| && LastWithAlias(links, j)
        ensures Follow(db, reg, fuel, t, row, links[j]).Success?
        ensures links[j].rel.alias in out
        ensures out[links[j].rel.alias] == Rows(Follow(db, reg, fuel, t, row, links[j]).value)
      {
        if j == 0 {
          forall k | 0 <= k < |rest| ensures rest[k].rel.alias != l.rel.alias {
            assert rest[k] == links[k + 1];
          }
          assert l.rel.alias !in Aliases(rest);
          ExpandRowKeys(db, reg, fuel, t, row, acc', rest);
          assert out[l.rel.alias] == acc'[l.rel.alias];
        } else {
          assert links[j] == rest[j - 1];
          forall k | j - 1 < k < |rest| ensures rest[k].rel.alias != rest[j - 1].rel.alias {
            assert rest[k] == links[k + 1];
          }
        }
      }
    }
  }

  /** A successful `ExpandRows` keeps the rows, in order, and expands each one on its own. */
  lemma {:induction false} ExpandRowsEach(db: Db, reg: Registry, fuel: nat, t: Target, rows: seq<Row>)
    requires ExpandRows(db, reg, fuel, t, rows).Success?
    ensures var out := ExpandRows(db, reg, fuel, t, rows).value;
      && |out| == |rows|
      && forall i :: 0 <= i < |rows| ==>
           ExpandRow(db, reg, fuel, t, rows[i], rows[i], Links(t.relationships)) == Success(out[i])
    decreases |rows|
  {
    if rows != [] {
      ExpandRowsEach(db, reg, fuel, t, rows[1..]);
      var out := ExpandRows(db, reg, fuel, t, rows).value;
      forall i | 0 <= i < |rows|
        ensures ExpandRow(db, reg, fuel, t, rows[i], rows[i], Links(t.relationships)) == Success(out[i])
      {
        if i > 0 { assert rows[i] == rows[1..][i - 1]; }
      }
    }
  }

  /**
   * What `getRelatedData` returns. A failed query is the `QueryFailed` exception carrying the query text.
   * On success the result has exactly the fetched rows, in the fetched order, and every row keeps its
   * columns and gains one key per declared alias holding that relation's related rows.
   */
  lemma RelatedDataResult(db: Db, reg: Registry, fuel: nat, t: Target, c: Call)
    ensures db(SelectQuery(t, c)).None? ==> RelatedData(db, reg, fuel, t, c) == Failure(QueryFailed(SelectQuery(t, c)))
    ensures RelatedData(db, reg, fuel, t, c).Success? ==>
      && db(SelectQuery(t, c)).Some?
      && var rows := db(SelectQuery(t, c)).value;
         var out := RelatedData(db, reg, fuel, t, c).value;
         && |out| == |rows|
         && forall i :: 0 <= i < |rows| ==>
              AttachedAlong(db, reg, fuel, t, rows[i], rows[i], Links(t.relationships), out[i])
  {
    if RelatedData(db, reg, fuel, t, c).Success? {
      var rows := db(SelectQuery(t, c)).value;
      ExpandRowsEach(db, reg, fuel, t, rows);
      forall i | 0 <= i < |rows|
        ensures AttachedAlong(db, reg, fuel, t, rows[i], rows[i], Links(t.relationships), RelatedData(db, reg, fuel, t, c).value[i])
      {
        ExpandRowAttaches(db, reg, fuel, t, rows[i], rows[i], Links(t.relationships));
      }
    }
  }

  /**
   * The query a `has` relation sends for a fetched row: the related table under the alias,
   * filtered on `alias.fk` by the row's primary-key value (no filter when that value is empty).
   */
  lemma HasQuery(t: Target, row: Row, rel: Relation, related: Target)
    requires !IsEmptyString(rel.alias)
    ensures var rowID := Lookup(row, PkText(t.primaryKey));
      var head := "SELECT * FROM " + related.tableName + " AS " + rel.alias;
      SelectQuery(related, RecursionArgs(t, row, Link(Has, rel), related))
        == if IsEmpty(rowID) then head else head + " WHERE " + rel.alias + "." + rel.fk + " = '" + ToString(rowID) + "' "
  {
  }

  /**
   * The query a `belongsTo` relation sends: the related table under the alias, filtered on the
   * related primary key by the row's own `fk` column (no filter when that column is empty).
   */
  lemma BelongsToQuery(t: Target, row: Row, rel: Relation, related: Target)
    requires !IsEmptyString(rel.alias)
    ensures var fkID := Lookup(row, rel.fk);
      var head := "SELECT * FROM " + related.tableName + " AS " + rel.alias;
      SelectQuery(related, RecursionArgs(t, row, Link(BelongsTo, rel), related))
        == if IsEmpty(fkID) then head
           else head + " WHERE " + rel.alias + "." + PkText(related.primaryKey) + " = '" + ToString(fkID) + "' "
  {
  }

  /**
   * The query a `hasAndBelongsToMany` relation sends, with a link table named: the related table
   * joined with the link table, filtered on `linkTable.fk` by the row's primary-key value, and the
   * related primary key tied to `linkTable.remoteFK`.
   */
  lemma HabtmQuery(t: Target, row: Row, rel: Relation, related: Target)
    requires !IsEmptyString(rel.alias) && !IsEmptyString(rel.linkTable)
    ensures var rowID := Lookup(row, PkText(t.primaryKey));
      var head := "SELECT * FROM " + related.tableName + " AS " + rel.alias + ", " + rel.linkTable;
      var filtered := if IsEmpty(rowID) then head
                      else head + " WHERE " + rel.linkTable + "." + rel.fk + " = '" + ToString(rowID) + "' ";
      SelectQuery(related, RecursionArgs(t, row, Link(HasAndBelongsToMany, rel), related))
        == filtered + " AND " + PkText(related.primaryKey) + " = " + rel.linkTable + "." + rel.remoteFK
  {
    var rowID := Lookup(row, PkText(t.primaryKey));
    var c := RecursionArgs(t, row, Link(HasAndBelongsToMany, rel), related);
    assert c == Call(rowID, rel.linkTable + "." + rel.fk, rel.alias, rel.linkTable, rel.linkTable + "." + rel.remoteFK);
    assert SelectHead(related, c.alias) == "SELECT * FROM " + related.tableName + " AS " + rel.alias;
  }

  /** `empty($id)`: an id of NULL, false, 0, "" or "0" adds no filter, so it fetches what no id fetches. */
  lemma EmptyIdFetchesAll(db: Db, reg: Registry, fuel: nat, t: Target, c: Call)
    requires IsEmpty(c.id)
    ensures RelatedData(db, reg, fuel, t, c) == RelatedData(db, reg, fuel, t, c.(id := Null))
  {
  }

  // Fuel: a result that did not run out of hops is the result with any larger bound.

  lemma {:induction false} RelatedDataFuel(db: Db, reg: Registry, f: nat, g: nat, t: Target, c: Call)
    requires f <= g && RelatedData(db, reg, f, t, c) != Failure(DepthExhausted)
    ensures RelatedData(db, reg, g, t, c) == RelatedData(db, reg, f, t, c)
    decreases f, 3
  {
    match db(SelectQuery(t, c)) {
      case None =>
      case Some(rows) => ExpandRowsFuel(db, reg, f, g, t, rows);
    }
  }

  lemma {:induction false} ExpandRowsFuel(db: Db, reg: Registry, f: nat, g: nat, t: Target, rows: seq<Row>)
    requires f <= g && ExpandRows(db, reg, f, t, rows) != Failure(DepthExhausted)
    ensures ExpandRows(db, reg, g, t, rows) == ExpandRows(db, reg, f, t, rows)
    decreases f, 2, |rows|
  {
    if rows != [] {
      ExpandRowFuel(db, reg, f, g, t, rows[0], rows[0], Links(t.relationships));
      if ExpandRow(db, reg, f, t, rows[0], rows[0], Links(t.relationships)).Success? {
        ExpandRowsFuel(db, reg, f, g, t, rows[1..]);
      }
    }
  }

  lemma {:induction false} ExpandRowFuel(db: Db, reg: Registry, f: nat, g: nat, t: Target, row: Row, acc: Row, links: seq<Link>)
    requires f <= g && ExpandRow(db, reg, f, t, row, acc, links) != Failure(DepthExhausted)
    ensures ExpandRow(db, reg, g, t, row, acc, links) == ExpandRow(db, reg, f, t, row, acc, links)
    decreases f, 1, |links|
  {
    if links != [] {
      FollowFuel(db, reg, f, g, t, row, links[0]);
      match Follow(db, reg, f, t, row, links[0]) {
        case Failure(_) =>
        case Success(sub) => ExpandRowFuel(db, reg, f, g, t, row, acc[links[0].rel.alias := Rows(sub)], links[1..]);
      }
    }
  }

  lemma {:induction false} FollowFuel(db: Db, reg: Registry, f: nat, g: nat, t: Target, row: Row, l: Link)
    requires f <= g && Follow(db, reg, f, t, row, l) != Failure(DepthExhausted)
    ensures Follow(db, reg, g, t, row, l) == Follow(db, reg, f, t, row, l)
    decreases f, 0
  {
    if l.rel.model in reg && f > 0 {
      var related := Instance(reg, l.rel.model);
      RelatedDataFuel(db, reg, f - 1, g - 1, related, RecursionArgs(t, row, l, related));
    }
  }
}
