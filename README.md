# DScribe repository core, in Dafny

This project models `DScribe\Core\Repository`, the fluent repository that
application code uses in front of a `DBScribe\Table` handle. The model covers:

- the optional table handle and the "no table bound" guard of each method;
- the join registry (`alwaysJoin`), which `select` replays every time;
- the read flag (`isSelect`);
- how `checkModels` normalises a list of models;
- how the finders adapt the table's answer;
- the dynamic dispatcher (`__call`).

The table handle is known only by what it receives and what it answers. The
repository keeps the calls the handle has received in a field, `sent`. The
handle's answers to `execute` and to forwarded methods are functions of those
calls.

Files (one module each):

- `wrappers.dfy`: `Option` and `Result`.
- `php_array.dfy`: PHP's ordered arrays with string keys. `Put` assigns a value to a key: an existing key keeps its position, a new key goes at the end.
- `values.dfy`: the PHP values callers pass in. Also the external helpers as parameters (`Util`) and the error kinds.
- `table_handle.dfy`: the handle. The calls it receives (`Call`), its answers (`Reply`, `Answer`) and the join replay (`JoinCalls`).
- `normalizer.dfy`: the wrapping of non-array arguments, `checkModels` and the key conversion of map elements.
- `result_adapter.dfy`: the finders' adaptation of answers, and the primary-key getter of `findOne`.
- `dispatcher.dfy`: how `__call` reads a method name.
- `repository.dfy`: the `Repository` class.

`camelTo_`, `_toCamel` and `json_encode` are external helpers. They are fields
of `Util` with no definition. The source calls two different `camelTo_` helpers:

- `findBy` calls `\DBScribe\Util::camelTo_` (field `dbCamelTo`);
- `checkModels` and `orderBy` call `\Util::camelTo_` (field `camelTo`).

The model keeps them apart.

Points where the code behaves otherwise than one might expect, and which the model follows:

- `findWhere` with `toJson` true returns the table's answer as it is. That answer can be a raw boolean.
- `findOneWhere`'s fallback (`'{}'` or null for a boolean result) is never reached. `findWhere` without JSON always returns a collection, so an empty result gives `first()` of an empty collection.
- `find` and `findOne` have no guard for an absent table. They fail (`NoTable`) where the other finders return an empty collection.
- The join registry is replayed in insertion order, and an updated entry keeps its position.
- `findBy` and `findWhere` send their criteria straight to the table. They do not replay joins and do not run `checkModels`.
- `findOneBy` does not convert its column name.
- `select` sends the registry's joins before `checkModels` can throw.

## Model

| member | source | states |
|---|---|---|
| `PhpArray.Put` | src/Core/Repository.php:174 | After assigning `v` to key `k`, `k` maps to `v` and every other key keeps its value. An existing key keeps its position and no entry is added. A new key is appended at the end. Distinct keys stay distinct. |
| `PhpArray.PutTwice` | src/Core/Repository.php:174 | Storing a key twice leaves the array as if only the second store had happened. |
| `Repositories.Repository.constructor` | src/Core/Repository.php:40 | A new repository has an empty join registry, its read flag unset and no calls sent. |
| `Repositories.Repository.AlwaysJoin` | src/Core/Repository.php:173-176 | Returns the repository itself, with or without a table. The registry maps the table name to the options and every other entry is unchanged. An existing table name keeps its position. |
| `TableHandle.JoinCallsAt` | src/Core/Repository.php:178-182 | Replaying the registry issues one `join(tableName, options)` per entry, in registry order. |
| `TableHandle.JoinReplayedOnce` | src/Core/Repository.php:178-182 | A registry with distinct names replays the join for a table exactly once, with the options last stored for it. |
| `Repositories.Repository.InsertJoins` | src/Core/Repository.php:178-182 | Sends exactly the replayed join calls of the registry, in registry order. |
| `Repositories.Repository.Join` | src/Core/Repository.php:180 | A `join(t, o)` call on the repository goes through the dynamic dispatcher and sends exactly one `join(t, o)` to the table. |
| `Dispatcher.RouteJoin` | src/Core/Repository.php:180 | `join` is not a repository method and reaches the table's `join` through `__call`. |
| `Normalizer.Normalized` | src/Core/Repository.php:260-274 | A list without a rejected object normalises to a list of the same length. |
| `Normalizer.CheckModels` | src/Core/Repository.php:260-274 | Throws `NotAModel` exactly when some element is an object that is not a `DBScribe\Row`. Otherwise the list keeps its length and keys. Each map element has its keys converted and every other element is unchanged. |
| `Normalizer.ConvertKeysDistinct` | src/Core/Repository.php:265-269 | The rebuilt map of an element never holds a key twice. |
| `Normalizer.ConvertKeysKeys` | src/Core/Repository.php:265-269 | The rebuilt map's keys are exactly `camelTo_(k)` for the element's keys `k`. |
| `Normalizer.ConvertKeysValues` | src/Core/Repository.php:266-268 | Each value is stored under its key's conversion. When two keys convert alike, the later entry's value wins. |
| `Normalizer.ConvertKeysInjective` | src/Core/Repository.php:265-269 | When the conversion tells the keys apart, the rebuilt map is the element with each key `k` replaced by `camelTo_(k)`, values and order unchanged. |
| `Repositories.Repository.Select` | src/Core/Repository.php:190-203 | Without a table it returns the repository and changes nothing. Otherwise it sends every registry join in order, then normalises the wrapped argument. If normalisation throws, only the joins were sent and the read flag is unchanged. Otherwise it sends `select(list, toJson)` and sets the read flag. |
| `Repositories.Repository.Insert` | src/Core/Repository.php:210-221 | Without a table it returns the repository and sends nothing. A rejected model throws before anything is sent. Otherwise it sends `insert` with the normalised list. |
| `Repositories.Repository.Update` | src/Core/Repository.php:229-240 | Same as `insert`, and `update` also carries the unconverted match property. |
| `Repositories.Repository.Delete` | src/Core/Repository.php:247-258 | Same as `insert`, sending `delete`. |
| `Repositories.Repository.Limit` | src/Core/Repository.php:282-288 | Returns the repository. It sends `limit(step, start)` only when a table is bound. |
| `Repositories.Repository.OrderBy` | src/Core/Repository.php:296-302 | Returns the repository. With a table it sends `orderBy(camelTo_(column), direction)`, otherwise nothing. |
| `Repositories.Repository.GetTableName` | src/Core/Repository.php:308-311 | The bound table's name, or nothing when no table is bound. |
| `Repositories.Repository.Execute` | src/Core/Repository.php:317-322 | Without a table it returns false and sends nothing. Otherwise it forwards its arguments to the table's `execute` and returns the table's answer unadapted. |
| `Repositories.Repository.Flush` | src/Core/Repository.php:328-333 | Without a table it returns false. Otherwise it returns the shared connection's commit result. |
| `Repositories.Repository.FetchAll` | src/Core/Repository.php:48-57 | Never returns a boolean. Without a table it returns an empty collection and changes nothing. Otherwise it sends the joins, `select([], toJson)` and `execute()`, and sets the read flag. A boolean answer becomes an empty collection and any other answer is returned. |
| `Repositories.Repository.FindBy` | src/Core/Repository.php:66-75 | Never returns a boolean. Without a table it returns an empty collection. Otherwise it sends `select([[dbCamelTo(column) => value]], toJson)` and `execute()`, with no joins and the read flag unchanged. A boolean answer becomes an empty collection. |
| `Repositories.Repository.FindWhere` | src/Core/Repository.php:119-131 | Without a table it returns an empty collection. Otherwise it sends the criteria as they are (non-arrays wrapped in a one-element list) and `execute()`. Without JSON, a non-object answer becomes an empty collection, so the result is always a collection. With JSON the answer is returned as is. |
| `Repositories.Repository.FindOneWhere` | src/Core/Repository.php:139-146 | Calls `findWhere` without JSON and returns the first row of its collection (null if empty). With JSON it returns that row JSON-encoded. |
| `Repositories.Repository.FindOneBy` | src/Core/Repository.php:84-86 | Same as `findOneWhere` on the single group `[[column => value]]`, with the column unconverted. |
| `Repositories.Repository.FindOne` | src/Core/Repository.php:94-101 | Fails without a table. For an object it takes the key from the getter named `get` followed by `ucfirst(_toCamel(pk))` and fails if the object has no such getter. It then behaves as `findOneBy(pk, key)`. |
| `Repositories.Repository.Find` | src/Core/Repository.php:109-111 | Fails without a table. Otherwise it sends exactly what `findBy(pk, id, toJson)` sends and returns what `findBy` returns. |
| `Dispatcher.FindByPrefixedIff` | src/Core/Repository.php:150 | A name has the `findby` prefix exactly when it has at least six characters and they spell `findby` in any letter case. |
| `Dispatcher.RouteFindBy` | src/Core/Repository.php:150-152 | Every spelling of the `findby` prefix followed by a suffix routes to `findBy` with `ucfirst(suffix)` as the column. |
| `Dispatcher.TableMethod` | src/Core/Repository.php:155 | A name is a forwardable table method exactly when it is the lower-cased name of one operation of the closed set. |
| `Dispatcher.RouteForward` | src/Core/Repository.php:154-157 | A name without the prefix is forwarded exactly when it names a table method, compared case-insensitively, and then to that method. |
| `Repositories.Repository.Dispatch` | src/Core/Repository.php:148-164 | A `findby` name without arguments fails. With arguments it behaves as `findBy(ucfirst(suffix), args[0], args[1])`. A forwardable name sends the call to a bound table and returns the repository in place of a `Table` answer, any other answer unchanged. Every other case returns nothing and sends nothing. |

## Left out

- The constructor's wiring (`Engine::getDB`, `setConnection`, `db->table`, `init`, `delayExecute`) is global connection bootstrap. The model's constructor takes a bound or absent handle instead.
- `flush`'s commit goes through a process-wide connection. Its outcome is a parameter, and only the no-table guard is modelled.
- What `DBScribe\Table` does with the calls it receives (SQL building, I/O) is external. The handle is the log of its calls plus answer functions over that log.
- `getName` and `getPrimaryKey`, when the repository uses them itself, read constants of the handle and are not recorded as calls.
- `camelTo_`, `_toCamel` and `json_encode` have no definition here: they are uninterpreted parameters.
- `ArrayCollection::first()` is external. The model takes it as the first row, or null for an empty collection.
- PHP reflection (`method_exists`, `call_user_func_array`) becomes a closed set of names. The repository's own method names are listed, and the forwardable table methods are `join`, `getName`, `getPrimaryKey` and `delayExecute`. A table method outside that set is not forwarded.
- The re-wrapping of exceptions in `__call` is left out: no modelled table call throws.
- Repositories.Repository.Dispatch: a second argument of a dynamic `findBy<Column>` call is passed on as PHP's boolean conversion of that value. The source passes the raw value.
- Repositories.Repository.Dispatch: a `findBy<Column>` call without a value is the argument-count error of current PHP versions. Older versions warned and used null.
- Objects other than rows are known only by their parameterless getters, keyed by lower-cased method name. An object's `__call` fallback is not modelled.
- Strings are sequences of characters. `strtolower` and `ucfirst` act on ASCII letters only.
- `isSelect` starts as false where PHP leaves it null. No modelled code reads it.
