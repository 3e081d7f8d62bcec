/** The repository: a fluent layer over one table handle that may be
    absent, with a join registry replayed on every select and a flag that
    remembers a select was built. */
module Repositories {
  import opened Wrappers
  import opened Values
  import opened PhpArray
  import opened TableHandle
  import opened Normalizer
  import opened ResultAdapter
  import opened Dispatcher

  /** What a dynamic call (`__call`) gives back. */
  datatype Outcome =
    | This                 // the repository itself, for chaining
    | Rows(reply: Reply)   // what `findBy` returned
    | Returned(v: Value)   // what a forwarded table method returned
    | Nothing              // no return value (null)

  /** A forwarded call that gave back a `DBScribe\Table` gives back the
      repository instead. */
  function Forwarded(a: Answer): Outcome
  {
    if a.TableObject? then This else Returned(a.v)
  }

  /** The calls `findBy` sends: a select with one criteria group holding the
      converted column, then `execute`. */
  function FindByCalls(util: Util, column: string, value: Value, toJson: bool): seq<Call>
  {
    [Call.Select(ByColumn(util.dbCamelTo(column), value), toJson), Call.Execute([])]
  }

  /** The calls `findWhere` sends: a select with the criteria as given (not
      normalised, no joins), then `execute`. */
  function WhereCalls(criteria: Value, toJson: bool): seq<Call>
  {
    [Call.Select(AsList(criteria), toJson), Call.Execute([])]
  }

  class Repository {
    /** The table handle, or None when no table is bound. */
    const table: Option<Handle>
    const util: Util
    /** Table name to join options, replayed in this order on every select. */
    var alwaysJoin: seq<(string, seq<(string, Value)>)>
    var isSelect: bool
    /** Every call the table handle has received from this repository. */
    var sent: seq<Call>

    ghost predicate Valid()
      reads this
    {
      DistinctKeys(alwaysJoin) && (table.None? ==> sent == [])
    }

    constructor (table: Option<Handle>, util: Util)
      ensures Valid()
      ensures this.table == table && this.util == util
      ensures alwaysJoin == [] && !isSelect && sent == []
    {
      this.table := table;
      this.util := util;
      alwaysJoin := [];
      isSelect := false;
      sent := [];
    }

    /** `alwaysJoin`: records (or replaces in place) the options for one
        joined table and returns the repository. */
    method AlwaysJoin(tableName: string, options: seq<(string, Value)>) returns (self: Repository)
      requires Valid()
      modifies this`alwaysJoin
      ensures Valid() && self == this
      ensures alwaysJoin == Put(old(alwaysJoin), tableName, options)
      ensures Get(alwaysJoin, tableName) == Some(options)
      ensures forall t :: t != tableName ==> Get(alwaysJoin, t) == Get(old(alwaysJoin), t)
      ensures HasKey(old(alwaysJoin), tableName) ==>
        |alwaysJoin| == |old(alwaysJoin)| &&
        forall i :: 0 <= i < |alwaysJoin| ==> alwaysJoin[i].0 == old(alwaysJoin)[i].0
    {
      alwaysJoin := Put(alwaysJoin, tableName, options);
      self := this;
    }

    /** `insertJoins`: one `join` per registry entry, in registry order,
        each through the dynamic dispatcher. */
    method InsertJoins()
      requires Valid() && table.Some?
      modifies this`sent
      ensures Valid()
      ensures sent == old(sent) + JoinCalls(alwaysJoin)
    {
      var i := 0;
      while i < |alwaysJoin|
        invariant 0 <= i <= |alwaysJoin|
        invariant Valid()
        invariant sent == old(sent) + JoinCalls(alwaysJoin[..i])
      {
        JoinCallsPrefix(alwaysJoin, i);
        Join(alwaysJoin[i]);
        i := i + 1;
      }
      assert alwaysJoin[..i] == alwaysJoin;
    }

    /** A `join` call on the repository itself: the repository has no `join`,
        so the call goes through the dynamic dispatcher to the table. */
    method Join(entry: (string, seq<(string, Value)>))
      requires Valid() && table.Some?
      modifies this`sent
      ensures Valid()
      ensures sent == old(sent) + [JoinCall(entry)]
    {
      RouteJoin();
      var _ := Dispatch("join", [Text(entry.0), Array(entry.1)]);
    }

    /** `select`: replays the joins, normalises the models (which may throw
        after the joins were sent), sends the select and sets the read flag. */
    method Select(model: Value, toJson: bool) returns (r: Result<Repository, Error>)
      requires Valid()
      modifies this`sent, this`isSelect
      ensures Valid()
      ensures table.None? ==> r == Ok(this) && sent == old(sent) && isSelect == old(isSelect)
      ensures table.Some? ==>
        match Normalized(util.camelTo, AsList(model))
        case Ok(list) =>
          r == Ok(this) && isSelect &&
          sent == old(sent) + JoinCalls(alwaysJoin) + [Call.Select(list, toJson)]
        case Err(e) =>
          r == Err(e) && isSelect == old(isSelect) &&
          sent == old(sent) + JoinCalls(alwaysJoin)
    {
      if table.None? {
        return Ok(this);
      }
      InsertJoins();
      var list := CheckModels(util.camelTo, AsList(model));
      if list.Err? {
        return Err(list.error);
      }
      sent := sent + [Call.Select(list.value, toJson)];
      isSelect := true;
      r := Ok(this);
    }

    /** `insert`: normalises the models and sends them; nothing is sent when
        normalisation throws. */
    method Insert(model: Value) returns (r: Result<Repository, Error>)
      requires Valid()
      modifies this`sent
      ensures Valid()
      ensures table.None? ==> r == Ok(this) && sent == old(sent)
      ensures table.Some? ==>
        match Normalized(util.camelTo, AsList(model))
        case Ok(list) => r == Ok(this) && sent == old(sent) + [Call.Insert(list)]
        case Err(e) => r == Err(e) && sent == old(sent)
    {
      if table.None? {
        return Ok(this);
      }
      var list := CheckModels(util.camelTo, AsList(model));
      if list.Err? {
        return Err(list.error);
      }
      sent := sent + [Call.Insert(list.value)];
      r := Ok(this);
    }

    /** `update`: as `insert`, with the property to match rows on (`"id"`
        by default), passed on unconverted. */
    method Update(model: Value, whereProperty: string) returns (r: Result<Repository, Error>)
      requires Valid()
      modifies this`sent
      ensures Valid()
      ensures table.None? ==> r == Ok(this) && sent == old(sent)
      ensures table.Some? ==>
        match Normalized(util.camelTo, AsList(model))
        case Ok(list) => r == Ok(this) && sent == old(sent) + [Call.Update(list, whereProperty)]
        case Err(e) => r == Err(e) && sent == old(sent)
    {
      if table.None? {
        return Ok(this);
      }
      var list := CheckModels(util.camelTo, AsList(model));
      if list.Err? {
        return Err(list.error);
      }
      sent := sent + [Call.Update(list.value, whereProperty)];
      r := Ok(this);
    }

    /** `delete`: as `insert`. */
    method Delete(model: Value) returns (r: Result<Repository, Error>)
      requires Valid()
      modifies this`sent
      ensures Valid()
      ensures table.None? ==> r == Ok(this) && sent == old(sent)
      ensures table.Some? ==>
        match Normalized(util.camelTo, AsList(model))
        case Ok(list) => r == Ok(this) && sent == old(sent) + [Call.Delete(list)]
        case Err(e) => r == Err(e) && sent == old(sent)
    {
      if table.None? {
        return Ok(this);
      }
      var list := CheckModels(util.camelTo, AsList(model));
      if list.Err? {
        return Err(list.error);
      }
      sent := sent + [Call.Delete(list.value)];
      r := Ok(this);
    }

    /** `limit`: row count and first row (0 by default) for the table. */
    method Limit(step: int, start: int) returns (self: Repository)
      requires Valid()
      modifies this`sent
      ensures Valid() && self == this
      ensures table.None? ==> sent == old(sent)
      ensures table.Some? ==> sent == old(sent) + [Call.Limit(step, start)]
    {
      if table.Some? {
        sent := sent + [Call.Limit(step, start)];
      }
      self := this;
    }

    /** `orderBy`: the column is converted to the column-naming convention. */
    method OrderBy(column: string, direction: Direction) returns (self: Repository)
      requires Valid()
      modifies this`sent
      ensures Valid() && self == this
      ensures table.None? ==> sent == old(sent)
      ensures table.Some? ==> sent == old(sent) + [Call.OrderBy(util.camelTo(column), direction)]
    {
      if table.Some? {
        sent := sent + [Call.OrderBy(util.camelTo(column), direction)];
      }
      self := this;
    }

    /** `getTableName`: the bound table's name, or null. */
    method GetTableName() returns (r: Option<string>)
      ensures r.Some? <==> table.Some?
      ensures table.Some? ==> r.value == table.value.name
    {
      r := if table.Some? then Some(table.value.name) else None;
    }

    /** `execute`: passes its arguments on and returns the table's answer
        unadapted; false when no table is bound. */
    method Execute(args: seq<Value>) returns (r: Reply)
      requires Valid()
      modifies this`sent
      ensures Valid()
      ensures table.None? ==> r == Bool(false) && sent == old(sent)
      ensures table.Some? ==> sent == old(sent) + [Call.Execute(args)] && r == table.value.answer(sent)
    {
      if table.None? {
        return Bool(false);
      }
      sent := sent + [Call.Execute(args)];
      r := table.value.answer(sent);
    }

    /** `flush`: false when no table is bound, otherwise what the shared
        connection's commit reports (`committed`). */
    method Flush(committed: bool) returns (r: bool)
      ensures table.None? ==> !r
      ensures table.Some? ==> r == committed
    {
      r := table.Some? && committed;
    }

    /** `fetchAll`: the repository's own select with an empty list, then its
        execute, joins and read flag included; never a boolean. */
    method FetchAll(toJson: bool) returns (r: Reply)
      requires Valid()
      modifies this`sent, this`isSelect
      ensures Valid()
      ensures !r.Bool?
      ensures table.None? ==> r == Obj([]) && sent == old(sent) && isSelect == old(isSelect)
      ensures table.Some? ==>
        isSelect &&
        sent == old(sent) + JoinCalls(alwaysJoin) + [Call.Select([], toJson), Call.Execute([])] &&
        r == NoFailure(table.value.answer(sent))
    {
      if table.None? {
        return Obj([]);
      }
      assert Normalized(util.camelTo, AsList(Array([]))) == Ok([]);
      var selected := Select(Array([]), toJson);
      var reply := Execute([]);
      r := NoFailure(reply);
    }

    /** `findBy`: one criteria group, the column converted by the
        `\DBScribe\Util` helper, sent straight to the table (no joins, no
        normalisation, read flag untouched); never a boolean. */
    method FindBy(column: string, value: Value, toJson: bool) returns (r: Reply)
      requires Valid()
      modifies this`sent
      ensures Valid()
      ensures !r.Bool?
      ensures table.None? ==> r == Obj([]) && sent == old(sent)
      ensures table.Some? ==>
        sent == old(sent) + FindByCalls(util, column, value, toJson) &&
        r == NoFailure(table.value.answer(sent))
    {
      if table.None? {
        return Obj([]);
      }
      sent := sent + FindByCalls(util, column, value, toJson);
      r := NoFailure(table.value.answer(sent));
    }

    /** `findWhere`: the criteria, wrapped in a list unless already an array,
        sent straight to the table; a non-object answer becomes an empty
        collection only when JSON was not asked for. */
    method FindWhere(criteria: Value, toJson: bool) returns (r: Reply)
      requires Valid()
      modifies this`sent
      ensures Valid()
      ensures !toJson ==> r.Obj?
      ensures table.None? ==> r == Obj([]) && sent == old(sent)
      ensures table.Some? ==>
        sent == old(sent) + WhereCalls(criteria, toJson) &&
        r == WhereResult(table.value.answer(sent), toJson)
    {
      if table.None? {
        return Obj([]);
      }
      sent := sent + WhereCalls(criteria, toJson);
      r := WhereResult(table.value.answer(sent), toJson);
    }

    /** `findOneWhere`: the first row of what `findWhere` gives for the
        criteria (always fetched without JSON), JSON-encoded when asked.  The code's fallback
        for a boolean result is never taken, as `findWhere` without JSON
        always returns a collection. */
    method FindOneWhere(criteria: Value, toJson: bool) returns (r: Value)
      requires Valid()
      modifies this`sent
      ensures Valid()
      ensures table.None? ==> r == OneOf(util, [], toJson) && sent == old(sent)
      ensures table.Some? ==>
        sent == old(sent) + WhereCalls(criteria, false) &&
        r == OneOf(util, WhereResult(table.value.answer(sent), false).items, toJson)
    {
      var result := FindWhere(criteria, false);
      r := OneOf(util, result.items, toJson);
    }

    /** `findOneBy`: `findOneWhere` on one criteria group whose column is
        used as given, not converted. */
    method FindOneBy(column: string, value: Value, toJson: bool) returns (r: Value)
      requires Valid()
      modifies this`sent
      ensures Valid()
      ensures table.None? ==> r == OneOf(util, [], toJson) && sent == old(sent)
      ensures table.Some? ==>
        sent == old(sent) + WhereCalls(Array(ByColumn(column, value)), false) &&
        r == OneOf(util, WhereResult(table.value.answer(sent), false).items, toJson)
    {
      r := FindOneWhere(Array(ByColumn(column, value)), toJson);
    }

    /** `findOne`: `findOneBy` on the primary key, with an object's value
        taken from its primary-key getter.  There is no guard: without a
        table the primary-key lookup fails. */
    method FindOne(id: Value, toJson: bool) returns (r: Result<Value, Error>)
      requires Valid()
      modifies this`sent
      ensures Valid()
      ensures table.None? ==> r == Err(NoTable) && sent == old(sent)
      ensures table.Some? ==>
        match KeyValue(util, table.value.primaryKey, id)
        case Err(e) => r == Err(e) && sent == old(sent)
        case Ok(key) =>
          sent == old(sent) + WhereCalls(Array(ByColumn(table.value.primaryKey, key)), false) &&
          r == Ok(OneOf(util, WhereResult(table.value.answer(sent), false).items, toJson))
    {
      if table.None? {
        return Err(NoTable);
      }
      var key := KeyValue(util, table.value.primaryKey, id);
      if key.Err? {
        return Err(key.error);
      }
      var one := FindOneBy(table.value.primaryKey, key.value, toJson);
      r := Ok(one);
    }

    /** `find`: `findBy` on the primary key.  There is no guard: without a
        table the primary-key lookup fails. */
    method Find(id: Value, toJson: bool) returns (r: Result<Reply, Error>)
      requires Valid()
      modifies this`sent
      ensures Valid()
      ensures table.None? ==> r == Err(NoTable) && sent == old(sent)
      ensures table.Some? ==>
        sent == old(sent) + FindByCalls(util, table.value.primaryKey, id, toJson) &&
        r == Ok(NoFailure(table.value.answer(sent)))
    {
      if table.None? {
        return Err(NoTable);
      }
      var rows := FindBy(table.value.primaryKey, id, toJson);
      r := Ok(rows);
    }

    /** `__call`: `findBy<Column>` names go to `findBy` (a missing value is
        an argument-count error; a second argument is the JSON flag); a table
        method the repository lacks is forwarded when a table is bound, its
        `Table` result replaced by the repository; anything else gives null. */
    method Dispatch(name: string, args: seq<Value>) returns (r: Result<Outcome, Error>)
      requires Valid()
      modifies this`sent
      ensures Valid()
      ensures RouteOf(name).FindByColumn? ==>
        if args == [] then r == Err(MissingArgument) && sent == old(sent)
        else
          var toJson := |args| > 1 && Truthy(args[1]);
          (table.None? ==> r == Ok(Rows(Obj([]))) && sent == old(sent)) &&
          (table.Some? ==>
            sent == old(sent) + FindByCalls(util, RouteOf(name).column, args[0], toJson) &&
            r == Ok(Rows(NoFailure(table.value.answer(sent)))))
      ensures RouteOf(name).Forward? ==>
        (table.None? ==> r == Ok(Nothing) && sent == old(sent)) &&
        (table.Some? ==>
          sent == old(sent) + [Invoke(RouteOf(name).op, args)] &&
          r == Ok(Forwarded(table.value.invoke(sent))))
      ensures RouteOf(name).OwnMethod? || RouteOf(name).Unhandled? ==>
        r == Ok(Nothing) && sent == old(sent)
    {
      match RouteOf(name)
      case FindByColumn(column) =>
        if args == [] {
          return Err(MissingArgument);
        }
        var rows := FindBy(column, args[0], |args| > 1 && Truthy(args[1]));
        r := Ok(Rows(rows));
      case Forward(op) =>
        if table.None? {
          return Ok(Nothing);
        }
        sent := sent + [Invoke(op, args)];
        r := Ok(Forwarded(table.value.invoke(sent)));
      case OwnMethod =>
        r := Ok(Nothing);
      case Unhandled =>
        r := Ok(Nothing);
    }
  }
}
