/**
 * The base `Model` class: one node of a chain of models built from the request, each node
 * owning the next one (`subModel`) and pointing back to the one before it (`parentModel`),
 * with the operations that walk the chain and the entry points of the resolver.
 */
module Models {
  import opened Wrappers
  import opened Php
  import opened Schema
  import opened QueryBuilder
  import opened Resolver

  class Model {
    const className: string
    const tableName: string
    const fieldList: seq<FieldMeta>
    const relationships: Relationships
    const primaryKey: Option<string>
    /** The first entry of the params list this node was built from; NULL when the list was empty. */
    const requestParams: Option<Params>
    const parentModel: Model?
    var subModel: Model?
    /** This node followed by the nodes it owns, in chain order. */
    ghost var Below: seq<Model>

    /** The values this node holds. */
    function View(): NodeView {
      NodeView(className, tableName, fieldList, primaryKey, requestParams)
    }

    /** The node declared by class `cls` of the registry, with the primary key its constructor finds. */
    ghost predicate IsInstanceOf(reg: Registry, cls: string) {
      && cls in reg
      && className == cls
      && tableName == reg[cls].tableName
      && fieldList == reg[cls].fieldList
      && relationships == reg[cls].relationships
      && primaryKey == PrimaryKey(fieldList)
    }

    /** What `getRelatedData($this)` reads of this node. */
    function AsTarget(): Target {
      Target(className, tableName, primaryKey, relationships)
    }

    /**
     * `new cls($db, entries, parent)`: this node keeps the first entry's params and, when entries
     * remain, builds the next node from them, of the class the next entry names, with itself as
     * parent. A class name that no model declares is a fatal error in the source, so every name
     * used must be registered.
     */
    constructor (reg: Registry, cls: string, entries: seq<(string, Params)>, parent: Model?)
      requires cls in reg
      requires forall i :: 1 <= i < |entries| ==> entries[i].0 in reg
      ensures IsInstanceOf(reg, cls) && IsFirstPrimaryKey(fieldList, primaryKey)
      ensures parentModel == parent
      ensures requestParams == if entries == [] then None else Some(entries[0].1)
      ensures |Below| == (if entries == [] then 1 else |entries|) && Below[0] == this
      ensures Linked(Below)
      ensures BuiltFrom(reg, entries, Below)
      ensures forall m :: m in Below ==> fresh(m)
      decreases |entries|
    {
      var pk := FindPrimaryKey(reg[cls].fieldList);
      className := cls;
      tableName := reg[cls].tableName;
      fieldList := reg[cls].fieldList;
      relationships := reg[cls].relationships;
      primaryKey := pk;
      parentModel := parent;
      requestParams := if entries == [] then None else Some(entries[0].1);
      subModel := null;
      new;
      Below := [this];
      if |entries| > 1 {
        var rest := entries[1..];
        var sub := new Model(reg, rest[0].0, rest, this);
        assert this !in sub.Below;
        subModel := sub;
        Below := [this] + sub.Below;
        assert Below[0] == this && |Below| == |entries|;
        LinkedCons(this, sub.Below);
        InstancesCons(reg, entries, this, sub.Below);
      }
    }

    /** `getRootModel`: follow `parentModel` until a node has none; from any node that is the head. */
    method GetRootModel(ghost chain: seq<Model>) returns (root: Model)
      requires IsChain(chain) && this in chain
      ensures root == chain[0]
    {
      ghost var k :| 0 <= k < |chain| && chain[k] == this;
      root := this;
      while root.parentModel != null
        invariant 0 <= k < |chain| && root == chain[k]
        invariant k > 0 ==> chain[k].parentModel == chain[k - 1]
        decreases k
      {
        root := root.parentModel;
        k := k - 1;
      }
    }

    /**
     * `getRequestParamsChain`: from the root to the terminal node, record each node's params under
     * its class name. The result depends on the chain only, not on the node it is called on.
     */
    method GetRequestParamsChain(ghost chain: seq<Model>) returns (r: map<string, Option<Params>>)
      requires IsChain(chain) && this in chain
      ensures r == ParamsChain(Views(chain))
    {
      var node := GetRootModel(chain);
      r := map[node.className := node.requestParams];
      ghost var k := 0;
      assert Views(chain)[..1] == [node.View()];
      while node.subModel != null
        invariant 0 <= k < |chain| && node == chain[k]
        invariant k < |chain| - 1 ==> chain[k].subModel == chain[k + 1]
        invariant r == ParamsChain(Views(chain)[..k + 1])
        decreases |chain| - k
      {
        node := node.subModel;
        k := k + 1;
        r := r[node.className := node.requestParams];
        assert Views(chain)[..k + 1][..k] == Views(chain)[..k];
      }
      assert Views(chain)[..k + 1] == Views(chain);
    }

    /**
     * `getQueryComponents`: default the missing lists, add this node's field clauses and, when it
     * has an id, its where clause, then continue at the next node; the terminal node sets `from`.
     */
    method GetQueryComponents(ghost chain: seq<Model>, ghost k: nat, q: QueryArray) returns (r: QueryArray)
      requires IsChain(chain) && k < |chain| && chain[k] == this
      ensures r == QueryComponents(Views(chain)[k..], q)
      decreases |chain| - k
    {
      var queryArray := AddClauses(q);

      ghost var views := Views(chain)[k..];
      assert views[0] == View();
      if k < |chain| - 1 {
        assert chain[k].subModel == chain[k + 1];
      }
      if subModel != null {
        assert k + 1 < |chain| && subModel == chain[k + 1];
        assert views[1..] == Views(chain)[k + 1..];
        r := subModel.GetQueryComponents(chain, k + 1, queryArray);
      } else {
        assert k == |chain| - 1 && |views| == 1;
        r := queryArray.(from := Some(tableName));
      }
    }

    /** The part of `getQueryComponents` that is this node's own: the five defaults, the field loop, the where clause. */
    method AddClauses(q: QueryArray) returns (queryArray: QueryArray)
      ensures queryArray == NodeStep(View(), WithDefaults(q))
    {
      queryArray := q;
      if queryArray.fields.None? { queryArray := queryArray.(fields := Some([])); }
      if queryArray.joins.None? { queryArray := queryArray.(joins := Some([])); }
      if queryArray.where.None? { queryArray := queryArray.(where := Some([])); }
      if queryArray.order.None? { queryArray := queryArray.(order := Some([])); }
      if queryArray.limit.None? { queryArray := queryArray.(limit := Some([])); }
      assert queryArray == WithDefaults(q);

      var clauses := NodeFieldClauses(View());
      var fields := queryArray.fields.value;
      for j := 0 to |fieldList|
        invariant fields == queryArray.fields.value + clauses[..j]
      {
        assert clauses[..j + 1] == clauses[..j] + [FieldClause(tableName, fieldList[j].field)];
        fields := fields + [FieldClause(tableName, fieldList[j].field)];
      }
      assert clauses[..|fieldList|] == clauses;
      queryArray := queryArray.(fields := Some(fields));

      if !IsLooselyNull(IdOf(requestParams)) {
        queryArray := queryArray.(where := Some(queryArray.where.value + [WhereClause(View())]));
      }
    }

    /** `getAll`: every row of this model, related data attached, under the class name. */
    method GetAll(db: Db, reg: Registry, fuel: nat) returns (r: Result<map<string, seq<Row>>, Error>)
      ensures r == Keyed(className, RelatedData(db, reg, fuel, AsTarget(), AllRowsCall))
    {
      var rows := GetRelatedData(db, reg, fuel, AsTarget(), AllRowsCall);
      r := Keyed(className, rows);
    }

    /**
     * `getOne`: exactly one argument, else the "Incorrect number of parameters" exception; the
     * rows whose `id` column equals it, related data attached, under the class name. An argument
     * that `empty()` holds for adds no filter, so it returns what `getAll` returns.
     */
    method GetOne(db: Db, reg: Registry, fuel: nat, params: seq<Value>) returns (r: Result<map<string, seq<Row>>, Error>)
      ensures |params| != 1 ==> r == Failure(BadArgumentCount(|params|))
      ensures |params| == 1 ==> r == Keyed(className, RelatedData(db, reg, fuel, AsTarget(), OneRowCall(params[0])))
      ensures |params| == 1 && IsEmpty(params[0]) ==> r == Keyed(className, RelatedData(db, reg, fuel, AsTarget(), AllRowsCall))
    {
      if |params| != 1 {
        return Failure(BadArgumentCount(|params|));
      }
      if IsEmpty(params[0]) {
        EmptyIdFetchesAll(db, reg, fuel, AsTarget(), OneRowCall(params[0]));
      }
      var rows := GetRelatedData(db, reg, fuel, AsTarget(), OneRowCall(params[0]));
      r := Keyed(className, rows);
    }
  }

  /** `$data[get_class($this)] = ...`: the rows under the class name, or the exception. */
  function Keyed(name: string, rows: Result<seq<Row>, Error>): Result<map<string, seq<Row>>, Error> {
    match rows
    case Failure(e) => Failure(e)
    case Success(rs) => Success(map[name := rs])
  }

  /** Consecutive nodes are linked both ways, and the last node owns no further node. */
  ghost predicate Linked(chain: seq<Model>)
    reads chain
  {
    && |chain| > 0
    && chain[|chain| - 1].subModel == null
    && forall i :: 0 <= i < |chain| - 1 ==> chain[i].subModel == chain[i + 1] && chain[i + 1].parentModel == chain[i]
  }

  /** A node linked both ways to the head of a linked chain extends it. */
  lemma LinkedCons(m: Model, chain: seq<Model>)
    requires Linked(chain) && m.subModel == chain[0] && chain[0].parentModel == m
    ensures Linked([m] + chain)
  {
    var c := [m] + chain;
    forall i | 0 <= i < |c| - 1 ensures c[i].subModel == c[i + 1] && c[i + 1].parentModel == c[i] {
      if i > 0 { assert c[i] == chain[i - 1] && c[i + 1] == chain[i]; }
    }
  }

  /** Every node after the first is of the class its entry names and holds that entry's params. */
  ghost predicate BuiltFrom(reg: Registry, entries: seq<(string, Params)>, below: seq<Model>) {
    forall i :: 1 <= i < |below| && i < |entries| ==>
      below[i].IsInstanceOf(reg, entries[i].0) && below[i].requestParams == Some(entries[i].1)
  }

  /** Prefixing a node to the nodes built from `entries[1..]` gives the nodes built from `entries`. */
  lemma InstancesCons(reg: Registry, entries: seq<(string, Params)>, m: Model, below: seq<Model>)
    requires |entries| > 1 && |below| == |entries| - 1 && below != []
    requires below[0].IsInstanceOf(reg, entries[1].0) && below[0].requestParams == Some(entries[1].1)
    requires BuiltFrom(reg, entries[1..], below)
    ensures BuiltFrom(reg, entries, [m] + below)
  {
    forall i | 1 <= i < |[m] + below| && i < |entries|
      ensures ([m] + below)[i].IsInstanceOf(reg, entries[i].0) && ([m] + below)[i].requestParams == Some(entries[i].1)
    {
      assert ([m] + below)[i] == below[i - 1];
      if i > 1 { assert entries[1..][i - 1] == entries[i]; }
    }
  }

  /** A whole chain: linked, and its head has no parent. */
  ghost predicate IsChain(chain: seq<Model>)
    reads chain
  {
    Linked(chain) && chain[0].parentModel == null
  }

  /** The values the nodes of a chain hold, in chain order. */
  function Views(chain: seq<Model>): seq<NodeView> {
    seq(|chain|, i requires 0 <= i < |chain| => chain[i].View())
  }

  /** `$requestParams[get_class($node)] = $node->requestParams` for the nodes in order. */
  function ParamsChain(views: seq<NodeView>): map<string, Option<Params>> {
    if views == [] then map[]
    else ParamsChain(views[..|views| - 1])[views[|views| - 1].className := views[|views| - 1].requestParams]
  }

  /** A chain never revisits a node: its links are acyclic. */
  lemma {:induction false} ChainIsAcyclic(chain: seq<Model>, i: nat, j: nat)
    requires IsChain(chain) && i < j < |chain|
    ensures chain[i] != chain[j]
    decreases i
  {
    assert chain[j].parentModel == chain[j - 1];
    if i > 0 {
      ChainIsAcyclic(chain, i - 1, j - 1);
      assert chain[i].parentModel == chain[i - 1];
    }
  }

  /** The parameter chain has one key per class name in the chain. */
  lemma {:induction false} ParamsChainKeys(views: seq<NodeView>)
    ensures ParamsChain(views).Keys == set i | 0 <= i < |views| :: views[i].className
  {
    if views != [] {
      var n := |views| - 1;
      var init := views[..n];
      ParamsChainKeys(init);
      forall c | c in ParamsChain(views).Keys ensures c in set i | 0 <= i < |views| :: views[i].className {
        if c != views[n].className {
          var i :| 0 <= i < |init| && init[i].className == c;
          assert views[i] == init[i];
        }
      }
      forall c | c in set i | 0 <= i < |views| :: views[i].className ensures c in ParamsChain(views).Keys {
        var i :| 0 <= i < |views| && views[i].className == c;
        if i < n { assert init[i] == views[i]; }
      }
    }
  }

  /** Under each class name stand the params of the last node of that class. */
  lemma {:induction false} ParamsChainLast(views: seq<NodeView>, i: nat)
    requires i < |views| && forall j :: i < j < |views| ==> views[j].className != views[i].className
    ensures views[i].className in ParamsChain(views)
    ensures ParamsChain(views)[views[i].className] == views[i].requestParams
  {
    var n := |views| - 1;
    if i < n {
      var init := views[..n];
      assert views[i] == init[i];
      forall j | i < j < |init| ensures init[j].className != init[i].className {
        assert init[j] == views[j];
      }
      ParamsChainLast(init, i);
    }
  }
}
