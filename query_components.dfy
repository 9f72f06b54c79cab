/**
 * The query-component record that `getQueryComponents` threads through a model chain:
 * lists of field clauses, joins, where clauses, orderings and limits, and the table
 * the query starts from. A component that is missing (or NULL) is `None`.
 */
module QueryBuilder {
  import opened Wrappers
  import opened Php
  import opened Schema

  datatype QueryArray = QueryArray(fields: Option<seq<string>>, joins: Option<seq<Value>>,
                                   where: Option<seq<string>>, order: Option<seq<Value>>,
                                   limit: Option<seq<Value>>, from: Option<string>)

  /** `getQueryComponents()` called without an argument. */
  const NoQuery := QueryArray(None, None, None, None, None, None)

  /** The five `isset` checks: a missing list becomes the empty list, a present one stays. */
  function WithDefaults(q: QueryArray): QueryArray {
    q.(fields := Some(q.fields.GetOr([])), joins := Some(q.joins.GetOr([])),
       where := Some(q.where.GetOr([])), order := Some(q.order.GetOr([])),
       limit := Some(q.limit.GetOr([])))
  }

  /** "table.field AS 'table.field'" */
  function FieldClause(table: string, field: string): string {
    table + "." + field + " AS '" + table + "." + field + "'"
  }

  /** `$this->requestParams['id']`: NULL when the params or the key are missing. */
  function IdOf(params: Option<Params>): Value {
    match params
    case None => Null
    case Some(p) => Lookup(p, "id")
  }

  /** `$this->requestParams['id'] != null`, a loose comparison: an id of "0" counts, 0 does not. */
  predicate HasId(v: NodeView) {
    !IsLooselyNull(IdOf(v.requestParams))
  }

  /** "table.pk = id" */
  function WhereClause(v: NodeView): string {
    v.tableName + "." + PkText(v.primaryKey) + " = " + ToString(IdOf(v.requestParams))
  }

  /** The field clauses one node contributes: one per entry of its field list, in order. */
  function NodeFieldClauses(v: NodeView): seq<string> {
    seq(|v.fieldList|, j requires 0 <= j < |v.fieldList| => FieldClause(v.tableName, v.fieldList[j].field))
  }

  /** One node's step: its field clauses, then its where clause if it has an id. */
  function NodeStep(v: NodeView, q: QueryArray): QueryArray
    requires q.fields.Some? && q.where.Some?
  {
    var fields := q.fields.value + NodeFieldClauses(v);
    var q' := q.(fields := Some(fields));
    if HasId(v) then q'.(where := Some(q.where.value + [WhereClause(v)])) else q'
  }

  /**
   * `getQueryComponents` run on the first node of `views` (a node and the nodes after it):
   * default, take this node's step, then hand over to the next node or, at the terminal
   * node, set `from`.
   */
  function QueryComponents(views: seq<NodeView>, q: QueryArray): QueryArray
    requires |views| > 0
    decreases |views|
  {
    var q' := NodeStep(views[0], WithDefaults(q));
    if |views| == 1 then q'.(from := Some(views[0].tableName))
    else QueryComponents(views[1..], q')
  }

  // Reference definitions: what the whole walk contributes, written without threading.

  /** All field clauses of the chain: per node, one per field in field order; nodes in chain order. */
  function AllFieldClauses(views: seq<NodeView>): seq<string> {
    if views == [] then []
    else NodeFieldClauses(views[0]) + AllFieldClauses(views[1..])
  }

  /** The where clauses of the chain: one per node that has an id, in chain order. */
  function AllWhereClauses(views: seq<NodeView>): seq<string> {
    if views == [] then []
    else (if HasId(views[0]) then [WhereClause(views[0])] else []) + AllWhereClauses(views[1..])
  }

  /** The number of nodes that carry an id. */
  function CountWithId(views: seq<NodeView>): nat {
    if views == [] then 0 else (if HasId(views[0]) then 1 else 0) + CountWithId(views[1..])
  }

  function TotalFields(views: seq<NodeView>): nat {
    if views == [] then 0 else |views[0].fieldList| + TotalFields(views[1..])
  }

  /**
   * What `getQueryComponents` returns: the given fields and where clauses stay a prefix and
   * are followed by the clauses of every node in chain order; joins, order and limit are
   * passed through (defaulted to empty) and never extended; `from` is the terminal table.
   */
  lemma {:induction false} QueryComponentsContents(views: seq<NodeView>, q: QueryArray)
    requires |views| > 0
    ensures var r := QueryComponents(views, q);
      && r.fields == Some(q.fields.GetOr([]) + AllFieldClauses(views))
      && r.where == Some(q.where.GetOr([]) + AllWhereClauses(views))
      && r.joins == Some(q.joins.GetOr([]))
      && r.order == Some(q.order.GetOr([]))
      && r.limit == Some(q.limit.GetOr([]))
      && r.from == Some(views[|views| - 1].tableName)
    decreases |views|
  {
    var q' := NodeStep(views[0], WithDefaults(q));
    if |views| > 1 {
      QueryComponentsContents(views[1..], q');
      assert views[1..][|views[1..]| - 1] == views[|views| - 1];
      assert q.fields.GetOr([]) + AllFieldClauses(views) == q'.fields.value + AllFieldClauses(views[1..]);
      assert q.where.GetOr([]) + AllWhereClauses(views) == q'.where.value + AllWhereClauses(views[1..]);
    } else {
      assert views[1..] == [];
      assert q.fields.GetOr([]) + AllFieldClauses(views) == q'.fields.value;
      assert q.where.GetOr([]) + AllWhereClauses(views) == q'.where.value;
    }
  }

  /** One field clause per field of every node, and one where clause per node with an id. */
  lemma {:induction false} ClauseCounts(views: seq<NodeView>)
    ensures |AllFieldClauses(views)| == TotalFields(views)
    ensures |AllWhereClauses(views)| == CountWithId(views)
  {
    if views != [] {
      ClauseCounts(views[1..]);
    }
  }

  /** Where clauses keep chain order: the clause of a node with an id sits after those of the nodes before it. */
  lemma {:induction false} WhereClauseAt(views: seq<NodeView>, i: nat)
    requires i < |views| && HasId(views[i])
    ensures var w := AllWhereClauses(views); var n := CountWithId(views[..i]);
      n < |w| && w[n] == WhereClause(views[i])
  {
    ClauseCounts(views);
    if i == 0 {
      assert views[..0] == [];
    } else {
      WhereClauseAt(views[1..], i - 1);
      assert views[1..][..i - 1] == views[..i][1..];
      ClauseCounts(views[1..]);
    }
  }
}
