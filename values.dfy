/** The PHP values that callers hand to the repository, and the external
    utilities it relies on. */
module Values {

  /** A PHP value as far as the repository inspects it.  An object carries
      the results of its parameterless getters, keyed by lower-cased method
      name (PHP method names are case-insensitive); `row` tells whether it is
      a `DBScribe\Row`. */
  datatype Value =
    | Null
    | Boolean(b: bool)
    | Integer(i: int)
    | Text(s: string)
    | Array(entries: seq<(string, Value)>)
    | Object(row: bool, getters: map<string, Value>)

  /** PHP's conversion of a value to bool. */
  predicate Truthy(v: Value)
  {
    match v
    case Null => false
    case Boolean(b) => b
    case Integer(i) => i != 0
    case Text(s) => s != "" && s != "0"
    case Array(entries) => entries != []
    case Object(_, _) => true
  }

  /** The naming-convention and serialisation helpers the repository calls.
      Their code is not part of this model, so they are parameters:
      - `camelTo` is `\Util::camelTo_` (property name to column name),
      - `dbCamelTo` is `\DBScribe\Util::camelTo_`, a second helper of the
        same purpose that `findBy` calls instead,
      - `toCamel` is `\Util::_toCamel` (column name to property name),
      - `jsonEncode` is PHP's `json_encode`. */
  datatype Util = Util(
    camelTo: string -> string,
    dbCamelTo: string -> string,
    toCamel: string -> string,
    jsonEncode: Value -> string)

  /** What the repository raises or runs into. */
  datatype Error =
    | NotAModel           // an object that is not a DBScribe\Row among the models
    | NoTable             // a method call on the absent table handle
    | NoSuchGetter(name: string)  // the primary-key getter is not defined
    | MissingArgument     // a dynamic findBy<Column> call without a value
}
