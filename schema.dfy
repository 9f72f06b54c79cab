/**
 * What a model class declares about its table: the field list (as `DESCRIBE` reports it),
 * the primary key found in it, and the relationships to other model classes.
 */
module Schema {
  import opened Wrappers
  import opened Php

  /** One entry of `fieldList`: the `Field` and `Key` columns of `DESCRIBE`. */
  datatype FieldMeta = FieldMeta(field: string, key: string)

  /** The three relation kinds, under the keys 'has', 'belongsTo' and 'hasAndBelongsToMany'. */
  datatype Kind = Has | BelongsTo | HasAndBelongsToMany

  /**
   * One declared relationship, stored under its alias. A key the declaration leaves
   * out reads as NULL in PHP, which behaves as "" wherever it is used.
   */
  datatype Relation = Relation(alias: string, model: string, fk: string, linkTable: string, remoteFK: string)

  /** The `relationships` property: per kind, the aliased relations in declaration order. */
  datatype Relationships = Relationships(has: seq<Relation>, belongsTo: seq<Relation>, habtm: seq<Relation>)

  datatype Link = Link(kind: Kind, rel: Relation)

  /** What a concrete model subclass declares: its table, field list and relationships. */
  datatype ModelClass = ModelClass(tableName: string, fieldList: seq<FieldMeta>, relationships: Relationships)

  /** The model classes known by name (`new $name`, `getModel($name)`). */
  type Registry = map<string, ModelClass>

  /** The values one model node holds once constructed. */
  datatype NodeView = NodeView(className: string, tableName: string, fieldList: seq<FieldMeta>,
                               primaryKey: Option<string>, requestParams: Option<Params>)

  function Tag(kind: Kind, rels: seq<Relation>): (links: seq<Link>)
    ensures |links| == |rels|
    ensures forall j :: 0 <= j < |rels| ==> links[j] == Link(kind, rels[j])
  {
    if rels == [] then [] else [Link(kind, rels[0])] + Tag(kind, rels[1..])
  }

  /** Every relationship in the order the resolver visits them: has, then belongsTo, then HABTM. */
  function Links(r: Relationships): seq<Link> {
    Tag(Has, r.has) + Tag(BelongsTo, r.belongsTo) + Tag(HasAndBelongsToMany, r.habtm)
  }

  /** The primary-key name as interpolated into SQL or used as an array key; NULL reads as "". */
  function PkText(pk: Option<string>): string {
    pk.GetOr("")
  }

  /** The primary key is the `Field` of the first entry whose `Key` is 'PRI'; NULL if none is. */
  ghost predicate IsFirstPrimaryKey(fieldList: seq<FieldMeta>, pk: Option<string>) {
    && (pk.Some? <==> exists i :: 0 <= i < |fieldList| && fieldList[i].key == "PRI")
    && (pk.Some? ==>
          exists i :: && 0 <= i < |fieldList| && fieldList[i].key == "PRI" && fieldList[i].field == pk.value
                       && forall j :: 0 <= j < i ==> fieldList[j].key != "PRI")
  }

  /** The primary key a model node computes from its field list, as a value. */
  function PrimaryKey(fieldList: seq<FieldMeta>): Option<string> {
    if fieldList == [] then None
    else if fieldList[0].key == "PRI" then Some(fieldList[0].field)
    else PrimaryKey(fieldList[1..])
  }

  lemma {:induction false} PrimaryKeyIsFirstPri(fieldList: seq<FieldMeta>)
    ensures IsFirstPrimaryKey(fieldList, PrimaryKey(fieldList))
  {
    if fieldList != [] && fieldList[0].key != "PRI" {
      var rest := fieldList[1..];
      PrimaryKeyIsFirstPri(rest);
      if PrimaryKey(rest).Some? {
        var i :| && 0 <= i < |rest| && rest[i].key == "PRI" && rest[i].field == PrimaryKey(rest).value
                 && forall j :: 0 <= j < i ==> rest[j].key != "PRI";
        assert fieldList[i + 1] == rest[i];
        forall j | 0 <= j < i + 1 ensures fieldList[j].key != "PRI" {
          if j > 0 { assert fieldList[j] == rest[j - 1]; }
        }
      } else {
        forall i | 0 <= i < |fieldList| ensures fieldList[i].key != "PRI" {
          if i > 0 { assert fieldList[i] == rest[i - 1]; }
        }
      }
    }
  }

  /** The constructor's search: scan `fieldList` and stop at the first 'PRI' entry. */
  method FindPrimaryKey(fieldList: seq<FieldMeta>) returns (pk: Option<string>)
    ensures IsFirstPrimaryKey(fieldList, pk)
    ensures pk == PrimaryKey(fieldList)
  {
    pk := None;
    for i := 0 to |fieldList|
      invariant pk == None
      invariant forall j :: 0 <= j < i ==> fieldList[j].key != "PRI"
      invariant PrimaryKey(fieldList) == PrimaryKey(fieldList[i..])
    {
      assert fieldList[i..][1..] == fieldList[i + 1..];
      if fieldList[i].key == "PRI" {
        pk := Some(fieldList[i].field);
        break;
      }
    }
  }
}
