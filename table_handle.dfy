/** The `DBScribe\Table` handle the repository delegates to.  Its own code
    (SQL building, I/O) is not part of this model: the handle is known by
    the calls it receives and by what it answers to them. */
module TableHandle {
  import opened Wrappers
  import opened Values
  import opened PhpArray

  /** `Table::ORDER_ASC` and `Table::ORDER_DESC`. */
  datatype Direction = Asc | Desc

  /** The table methods that the repository does not define itself and so
      reaches only through its dynamic dispatcher. */
  datatype TableOp = Join | GetName | GetPrimaryKey | DelayExecute

  /** The lower-cased PHP name of each forwardable table method. */
  function MethodName(op: TableOp): string
  {
    match op
    case Join => "join"
    case GetName => "getname"
    case GetPrimaryKey => "getprimarykey"
    case DelayExecute => "delayexecute"
  }

  /** One call the table handle received. */
  datatype Call =
    | Select(criteria: seq<(string, Value)>, toJson: bool)
    | Insert(models: seq<(string, Value)>)
    | Update(models: seq<(string, Value)>, whereProperty: string)
    | Delete(models: seq<(string, Value)>)
    | Limit(step: int, start: int)
    | OrderBy(column: string, direction: Direction)
    | Execute(args: seq<Value>)
    | Invoke(op: TableOp, args: seq<Value>)

  /** What `execute` gives back: the boolean failure sentinel, a collection
      of rows, or a JSON string. */
  datatype Reply = Bool(b: bool) | Obj(items: seq<Value>) | Str(s: string)

  /** What a forwarded table method gives back: a `DBScribe\Table` object
      (for chaining) or some other value. */
  datatype Answer = TableObject | Plain(v: Value)

  /** A bound table: its name, its primary-key column, and its answers to
      `execute` and to forwarded methods as functions of every call it has
      received so far (the last one being the call answered). */
  datatype Handle = Handle(
    name: string,
    primaryKey: string,
    answer: seq<Call> -> Reply,
    invoke: seq<Call> -> Answer)

  /** The join call for one registry entry. */
  function JoinCall(entry: (string, seq<(string, Value)>)): Call
  {
    Invoke(Join, [Text(entry.0), Array(entry.1)])
  }

  /** The join calls that replay a join registry, one per entry. */
  function JoinCalls(registry: seq<(string, seq<(string, Value)>)>): seq<Call>
  {
    if registry == [] then []
    else JoinCalls(registry[..|registry| - 1]) + [JoinCall(registry[|registry| - 1])]
  }

  /** Replaying one more entry of a registry adds its join at the end. */
  lemma JoinCallsPrefix(registry: seq<(string, seq<(string, Value)>)>, n: nat)
    requires n < |registry|
    ensures JoinCalls(registry[..n + 1]) == JoinCalls(registry[..n]) + [JoinCall(registry[n])]
  {
    assert registry[..n + 1][..n] == registry[..n];
  }

  /** Replaying a registry issues exactly one join per entry, in registry
      order. */
  lemma {:induction false} JoinCallsAt(registry: seq<(string, seq<(string, Value)>)>)
    ensures |JoinCalls(registry)| == |registry|
    ensures forall i :: 0 <= i < |registry| ==> JoinCalls(registry)[i] == JoinCall(registry[i])
  {
    if registry != [] {
      JoinCallsAt(registry[..|registry| - 1]);
    }
  }

  /** A registry with distinct table names replays the join for a table
      exactly once, with the options last stored for it. */
  lemma JoinReplayedOnce(registry: seq<(string, seq<(string, Value)>)>, tableName: string)
    requires DistinctKeys(registry) && HasKey(registry, tableName)
    ensures |JoinCalls(registry)| == |registry|
    ensures JoinCalls(registry)[IndexOf(registry, tableName)] ==
      JoinCall((tableName, Get(registry, tableName).value))
    ensures forall j, options :: 0 <= j < |registry| && JoinCalls(registry)[j] == JoinCall((tableName, options)) ==>
      j == IndexOf(registry, tableName)
  {
    JoinCallsAt(registry);
  }
}
