# Model chain and related-data resolver of the timeslips API

This project models the base `Model` class of the timeslips REST API (`api/api_core/models/model.php`) in Dafny.

The parsed request parameters, an ordered array of class name → params, become a **chain of models**. The caller picks the root's class, and each later entry's key names the class of the next node. Each node keeps its entry's request parameters. It points back to the node before it (`parentModel`) and owns the node after it (`subModel`). On top of the chain the class offers:

- `getRootModel`: walks back to the head of the chain.
- `getRequestParamsChain`: collects every node's parameters under its class name.
- `getQueryComponents`: walks the chain and builds a query description (fields, joins, where, order, limit, from).
- `getRelatedData`: the resolver. It fetches a table's rows and, for every row, recursively fetches the rows related to it through the `has`, `belongsTo` and `hasAndBelongsToMany` relationships declared on the class. The related rows are stored in the row under the relationship's alias.
- `getAll` and `getOne`: the entry points that run the resolver on the node's own table.

Modules:

- `Wrappers`: `Option` and `Result`.
- `Php`: the PHP values the class handles. It defines `empty()`, loose comparison with NULL, interpolation of a value into a string, and reading a missing array key.
- `Schema`: field lists, relationship declarations and model classes. It also holds the constructor's primary-key search, `FindPrimaryKey`, proved against the reference function `PrimaryKey`.
- `QueryBuilder`: the pure specification of `getQueryComponents`. `QueryComponents` follows the recursion over the chain. `AllFieldClauses` and `AllWhereClauses` describe the result independently.
- `Resolver`: `getRelatedData` as a method (`GetRelatedData`, with its row loop in `AttachToRows`) whose row loop and relationship loops update the fetched rows in place. It is proved equal to a specification function `RelatedData`, and the properties of that function are proved as lemmas.
- `Models`: `class Model`, with the chain built by its constructor and the chain-walking methods.
- `Scenarios`: worked examples on a two-table schema (authors and their books), proved on concrete values.

The database is a parameter `db: string -> Option<seq<Row>>`. It maps each query text to the rows it fetches, or to `None` when the query fails. The model classes of the application are a parameter `reg: Registry`, mapping a class name to its table, field list and relationships. The registry stands for PHP's "instantiate the class with this name" (`new $subModelName`) and for the root model's `relatedModels` table read by `getModel`. Neither of these is populated in model.php.

Four behaviours of the code that a reader may not expect:

- `getOne` filters on the column literally named `id` (`getRelatedData($this, $params[0])` keeps the default key `'id'`), not on the primary key.
- `getOne` with an argument that `empty()` holds for (0, "0", "", NULL, false) sends no WHERE clause and returns every row, the same as `getAll` (`Models.Model.GetOne`).
- A `belongsTo` row whose foreign-key column is NULL, 0, "" or "0" sends its query without a WHERE clause. It therefore nests the whole related table rather than nothing (`Resolver.BelongsToQuery`, `Resolver.EmptyIdFetchesAll`).
- A `getQueryComponents` node counts as having an id when `requestParams['id'] != null` under PHP's loose comparison. Under that comparison the string "0" is an id, although `empty("0")` holds (`Php.LooselyNullIsEmptyButZero`).

## Model

| member | source | states |
|---|---|---|
| Schema.FindPrimaryKey | api/api_core/models/model.php:61-67 | the scan stops at the first field whose Key is 'PRI' and returns its Field; it returns NULL exactly when no field is 'PRI'; the result equals the reference `PrimaryKey` |
| Schema.PrimaryKeyIsFirstPri | api/api_core/models/model.php:61-67 | the recursive reference `PrimaryKey` picks the first 'PRI' field, and is NULL exactly when there is none |
| Models.Model.constructor | api/api_core/models/model.php:52-80 | the node takes its class's table, fields and relationships, the first 'PRI' field as primary key, the given parent and the first params entry (NULL when none); one node is built per params entry, of the class each entry names, each linked both ways to its neighbours, and all of them are new |
| Models.ChainIsAcyclic | api/api_core/models/model.php:72-76 | a chain built by parent and sub links never visits the same node twice |
| Models.Model.GetRootModel | api/api_core/models/model.php:119-126 | from any node of a chain, following `parentModel` until it is NULL reaches the head of the chain |
| Models.Model.GetRequestParamsChain | api/api_core/models/model.php:102-114 | the result is the params of every node from the root to the terminal node, stored in chain order under the node's class name, whichever node it is called on |
| Models.ParamsChainKeys | api/api_core/models/model.php:102-114 | the parameter chain has exactly one key per class name occurring in the chain |
| Models.ParamsChainLast | api/api_core/models/model.php:106-111 | under a class name stand the params of the last node of that class (a later node of the same class overwrites an earlier one) |
| Models.Model.GetQueryComponents | api/api_core/models/model.php:351-387 | the method (this node's clauses, recursion into the sub model, `from` at the terminal node) returns `QueryComponents` of the chain from this node on |
| Models.Model.AddClauses | api/api_core/models/model.php:353-370 | the five `isset` defaults, the field loop and the where clause give exactly one step of `QueryComponents` for this node |
| QueryBuilder.QueryComponentsContents | api/api_core/models/model.php:351-387 | the result's fields are the given fields followed by one "table.field AS 'table.field'" per field of every node in chain order; its where list is the given where list followed by "table.pk = id" for each node with an id, in chain order; joins, order and limit are only defaulted, never extended; `from` is the terminal node's table |
| QueryBuilder.ClauseCounts | api/api_core/models/model.php:361-370 | the chain adds as many field clauses as its nodes have fields, and as many where clauses as it has nodes with an id |
| QueryBuilder.WhereClauseAt | api/api_core/models/model.php:365-370 | the where clause of a node with an id stands right after the clauses of the nodes with an id before it |
| Php.LooselyNullIsEmptyButZero | api/api_core/models/model.php:365 | a value loosely equal to NULL is empty(), and the only empty() value not loosely equal to NULL is the string "0" |
| Scenarios.WhereClausesInChainOrder | api/api_core/models/model.php:365-370 | in a chain of three where only the first and third nodes carry an id, the where list is exactly their two clauses, first then third |
| Resolver.SelectQuery | api/api_core/models/model.php:214-220 | the query always starts with "SELECT * FROM table AS alias" (the class name when no alias is given); with an empty id and no link table it is exactly that |
| Resolver.HasQuery | api/api_core/models/model.php:232-247 | through the per-kind arguments `RecursionArgs` (lines 240-246): a `has` relation queries the related table under its alias, filtered by `alias.fk = 'row id'`, with no filter when the row's id is empty |
| Resolver.BelongsToQuery | api/api_core/models/model.php:251-267 | through `RecursionArgs` (lines 257-266): a `belongsTo` relation queries the related table under its alias, filtered by `alias.relatedPk = 'row[fk]'`, with no filter when that column is empty |
| Resolver.HabtmQuery | api/api_core/models/model.php:270-286 | through `RecursionArgs` (lines 276-285): a `hasAndBelongsToMany` relation queries the related table joined with the link table, filtered by `linkTable.fk = 'row id'` when the id is not empty, and always constrained by `relatedPk = linkTable.remoteFK` |
| Php.IntInterpolationEmpty | api/api_core/models/model.php:219 | an integer id interpolated into `WHERE key = 'id'` reads as "" or "0" exactly when `empty($id)` holds for it, so a filter is added only for ids that do not print as empty |
| Resolver.EmptyIdFetchesAll | api/api_core/models/model.php:219 | an id of NULL, false, 0, "" or "0" gives the same result as no id at all |
| Resolver.GetRelatedData | api/api_core/models/model.php:213-294 | the method (build the query, run it, a failed query is the exception carrying the query text, then the row loop) returns `RelatedData` |
| Resolver.AttachToRows | api/api_core/models/model.php:225-292 | the loop over the fetched rows replaces each `$tmp[$rowKey]` in place by that row with its related data attached, computed from the row as fetched; the first failure aborts; the result is `ExpandRows` of the fetched rows |
| Resolver.AttachAll | api/api_core/models/model.php:230-290 | the body for one row runs the has, belongsTo and hasAndBelongsToMany loops in that order, and the first failure aborts |
| Resolver.AttachRelated | api/api_core/models/model.php:234-287 | one relationship loop stores each relation's related rows under its alias, in declaration order |
| Resolver.FollowRelation | api/api_core/models/model.php:236-285 | one relationship looks its model up and recurses one level down with that relation's arguments; an unknown model or an exhausted depth bound is an error |
| Resolver.ExpandRowAppend | api/api_core/models/model.php:234-287 | attaching along two lists of relations is attaching along the first, then along the second from that row |
| Resolver.RelatedDataResult | api/api_core/models/model.php:222-292 | a failed query is the exception carrying the query text; on success the result has exactly the fetched rows, in order, and each row keeps its unshadowed columns and gains one key per declared alias holding that relation's related rows |
| Resolver.ExpandRowAttaches | api/api_core/models/model.php:230-290 | after a successful row expansion, the row's keys are its columns plus the aliases; every relation's recursive call succeeded; under each alias stands the result of the last relation with that alias |
| Resolver.ExpandRowsEach | api/api_core/models/model.php:230-292 | a successful expansion keeps the number and order of rows, and expands each row independently of the others |
| Resolver.RelatedDataFuel | api/api_core/models/model.php:213-294 | a result that did not exhaust the depth bound is the same with any larger bound, so the bound only cuts recursion off and never changes a result |
| Scenarios.AuthorsWithBooks | api/api_core/models/model.php:213-294 | on two authors and three books, resolving authors returns both authors in fetched order, each with exactly its own books nested under `bs` |
| Models.Model.GetAll | api/api_core/models/model.php:299-305 | the result is the related data of the node's own table with no filter, under the node's class name |
| Models.Model.GetOne | api/api_core/models/model.php:310-320 | exactly one argument is required, otherwise the argument-count error; with one, the result is the related data filtered on `id` = that argument, under the node's class name; an argument that is empty() (0, "0", "", NULL, false) adds no filter, so the result is that of `getAll` |

## Left out

- The HTTP verb stubs `get`, `head`, `post`, `put`, `patch`, `delete` and `test` are left out. They only return a timestamp and a fixed message.
- `count` is left out. Its body is empty.
- `loadFieldList` is left out. It reads a cache file or runs `DESCRIBE`; the field list is taken from the registry instead.
- The database connection `$db` and PDO are replaced by the `db` oracle. The query text is modelled exactly; its execution is not.
- `buildQuery` is left out. The class documents it as unused.
- `getRelatedModels`, `getModel` and `findModelAlias` are left out. They read `relatedModels`, which this class never declares or fills. `getModel` is modelled as a lookup in the registry, and an unregistered name is the error `UnknownModel`.
- `getRequestParams`, `getFieldList` and `queryTest` are left out. Each returns a field or calls `getQueryComponents` with no argument. `getFieldList` returning `false` for an empty list behaves like the empty list in the field loop.
- Models.Model.constructor: it requires every class name it meets to be registered. In PHP an unknown class name is a fatal error, not a handled failure.
- Resolver.GetRelatedData: unbounded recursion through cyclic relationships is not modelled. Recursion depth is bounded by `fuel`, and running out is the error `DepthExhausted`.
- The order of keys in PHP arrays (the columns of a row, the keys of the parameter chain, the position where an alias key is appended) is not modelled. Rows and parameter arrays are maps.
- Floats and nested arrays inside request parameters are not modelled. Values are NULL, booleans, integers, strings and lists of rows.
- Resolver.SelectQuery: the query string is built by one pure function rather than by the source's successive `.=` appends. The resulting text is the same.
- Models.Model.GetQueryComponents: the joins step is left out. It is commented out in the source, so joins is only defaulted to an empty list.
- Models.Model.constructor: class names are matched exactly. PHP matches class names case-insensitively and `get_class` reports the spelling of the class declaration. The model uses the spelling given in the request entry or in the relation's `model`, both as the registry key and as the name the chain and the results are keyed by.
- Models.Model.GetOne: the arguments are a positional list, so its single argument is always `$params[0]`. In PHP a one-element array without key 0 (such as `array('id' => 3)`) passes the count test and then reads `$params[0]` as NULL, returning every row.
