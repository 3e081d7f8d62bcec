/** How the repository's dynamic dispatcher (`__call`) reads a method
    name.  PHP's `strtolower` and `ucfirst` are taken on ASCII letters. */
module Dispatcher {
  import opened Wrappers
  import opened TableHandle

  function Lower(c: char): char
  {
    if 'A' <= c <= 'Z' then (c as int + 32) as char else c
  }

  function Upper(c: char): char
  {
    if 'a' <= c <= 'z' then (c as int - 32) as char else c
  }

  /** `strtolower`. */
  function LowerStr(s: string): (r: string)
    ensures |r| == |s|
    ensures forall i :: 0 <= i < |s| ==> r[i] == Lower(s[i])
  {
    if s == [] then [] else [Lower(s[0])] + LowerStr(s[1..])
  }

  /** `ucfirst`. */
  function Ucfirst(s: string): string
  {
    if s == [] then s else [Upper(s[0])] + s[1..]
  }

  /** The first six characters, lower-cased, spell "findby"; a shorter
      name never matches. */
  predicate FindByPrefixed(name: string)
  {
    LowerStr(if |name| < 6 then name else name[..6]) == "findby"
  }

  /** The lower-cased names of the repository's own methods; PHP's
      `method_exists` compares names case-insensitively. */
  const OwnMethods: set<string> := {
    "__construct", "fetchall", "findby", "findoneby", "findone", "find",
    "findwhere", "findonewhere", "__call", "alwaysjoin", "insertjoins",
    "select", "insert", "update", "delete", "checkmodels", "limit",
    "orderby", "gettablename", "execute", "flush"
  }

  /** The table method a lower-cased name stands for, if any. */
  function TableMethod(lowerName: string): (r: Option<TableOp>)
    ensures r.Some? ==> MethodName(r.value) == lowerName
    ensures r.None? ==> forall op :: MethodName(op) != lowerName
  {
    if lowerName == "join" then Some(Join)
    else if lowerName == "getname" then Some(GetName)
    else if lowerName == "getprimarykey" then Some(GetPrimaryKey)
    else if lowerName == "delayexecute" then Some(DelayExecute)
    else None
  }

  /** Where a dynamic call goes. */
  datatype Route =
    | FindByColumn(column: string)  // findBy(column, ...arguments)
    | OwnMethod                     // defined on the repository: nothing happens
    | Forward(op: TableOp)          // passed on to the table
    | Unhandled                     // nothing happens

  function RouteOf(name: string): Route
  {
    if FindByPrefixed(name) then FindByColumn(Ucfirst(name[6..]))
    else MethodRoute(LowerStr(name))
  }

  /** Where a name without the `findby` prefix goes, from its lower-cased
      spelling. */
  function MethodRoute(lowerName: string): Route
  {
    if lowerName in OwnMethods then OwnMethod
    else match TableMethod(lowerName)
      case Some(op) => Forward(op)
      case None => Unhandled
  }

  /** The prefix test is a case-insensitive comparison of the first six
      characters, and fails on shorter names. */
  lemma FindByPrefixedIff(name: string)
    ensures FindByPrefixed(name) <==>
      6 <= |name| && forall i :: 0 <= i < 6 ==> Lower(name[i]) == "findby"[i]
  {
  }

  /** `findByEmail(...)`, `FINDBYemail(...)` and every other spelling of the
      prefix go to `findBy` with the rest of the name, first letter
      upper-cased, as the column. */
  lemma RouteFindBy(prefix: string, suffix: string)
    requires |prefix| == 6 && LowerStr(prefix) == "findby"
    ensures RouteOf(prefix + suffix) == FindByColumn(Ucfirst(suffix))
  {
  }

  /** Any other name is forwarded exactly when it names a table method that
      the repository does not define, and then to that method. */
  lemma RouteForward(name: string)
    requires !FindByPrefixed(name)
    ensures RouteOf(name).Forward? <==> exists op :: MethodName(op) == LowerStr(name)
    ensures RouteOf(name).Forward? ==> MethodName(RouteOf(name).op) == LowerStr(name)
  {
    TableMethodsNotOwn();
  }

  /** No forwardable table method shares its name with one of the
      repository's own methods. */
  lemma TableMethodsNotOwn()
    ensures forall op :: MethodName(op) !in OwnMethods
  {
  }

  /** A `join` call on the repository, as issued when it replays its join
      registry, reaches the table's `join`. */
  lemma RouteJoin()
    ensures RouteOf("join") == Forward(Join)
  {
  }
}
