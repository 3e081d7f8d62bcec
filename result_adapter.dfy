/** How the finders turn what the table answers into what they return. */
module ResultAdapter {
  import opened Wrappers
  import opened Values
  import opened TableHandle
  import opened Dispatcher

  /** `fetchAll` and `findBy`: a boolean answer becomes an empty
      collection, anything else is returned as it is. */
  function NoFailure(reply: Reply): Reply
  {
    if reply.Bool? then Obj([]) else reply
  }

  /** `findWhere`: an answer that is not an object becomes an empty
      collection, unless JSON was asked for. */
  function WhereResult(reply: Reply, toJson: bool): Reply
  {
    if !reply.Obj? && !toJson then Obj([]) else reply
  }

  /** `ArrayCollection::first()`: the first row, or null when there is none. */
  function First(items: seq<Value>): Value
  {
    if items == [] then Null else items[0]
  }

  /** `findOneWhere`'s answer from the collection `findWhere` gave it. */
  function OneOf(util: Util, items: seq<Value>, toJson: bool): Value
  {
    if toJson then Text(util.jsonEncode(First(items))) else First(items)
  }

  /** A list holding one criteria group that maps `column` to `value`. */
  function ByColumn(column: string, value: Value): seq<(string, Value)>
  {
    [("0", Array([(column, value)]))]
  }

  /** The getter for the primary key: "get" followed by the key's property
      name with its first letter upper-cased. */
  function GetterName(util: Util, primaryKey: string): string
  {
    "get" + Ucfirst(util.toCamel(primaryKey))
  }

  /** The key `findOne` looks up: an object's primary-key getter result, or
      the value itself. */
  function KeyValue(util: Util, primaryKey: string, id: Value): Result<Value, Error>
  {
    if id.Object? then
      var getter := GetterName(util, primaryKey);
      if LowerStr(getter) in id.getters then Ok(id.getters[LowerStr(getter)])
      else Err(NoSuchGetter(getter))
    else Ok(id)
  }
}
