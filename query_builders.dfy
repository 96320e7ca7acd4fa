/**
 * The values the query builders of the query engine work on: the parsed
 * arguments of a query, the `QueryArguments` and `RecordFinder` records of the
 * connector crate, and the validation error.
 *
 * The parsed input values, identifiers, orderings, filters, model fields and
 * models belong to other crates; their structure plays no part in the two
 * extraction functions, so they are opaque types here. The conversions that
 * those crates provide (the `try_into` implementations, `extract_filter`,
 * `ModelRef::fields().find_from_scalar`) are bundled in `Conversions`, a value
 * of total functions that every operation takes as a parameter.
 */
module QueryBuilders {
  import opened Wrappers

  /** A value of the parsed query document (`ParsedInputValue`). */
  type ParsedInputValue(==, !new)
  /** A record identifier, the type of the `after` and `before` cursors. */
  type GraphqlId(==)
  /** The ordering a query asks for (`orderBy`). */
  type OrderBy(==)
  /** A filter built from a `where` map. */
  type Filter(==)
  /** A scalar field of a model, as `find_from_scalar` returns it. */
  type ScalarFieldRef(==)
  /** A plain value, as a record finder carries it. */
  type PrismaValue(==)
  /** The model a query is about (`&ModelRef`). */
  type ModelRef
  /** What a failed conversion reports, already turned into a validation error by `?`. */
  type ConversionFailure(==)

  /** An argument of a query field: its name and its parsed value. */
  datatype ParsedArgument = ParsedArgument(name: string, value: ParsedInputValue)

  /** One entry of a `ParsedInputMap`. */
  datatype MapEntry = MapEntry(key: string, value: ParsedInputValue)

  /** A parsed input object, as its entries in the map's iteration order. */
  type ParsedInputMap = seq<MapEntry>

  datatype QueryValidationError =
    | AssertionError(keys: seq<string>)   // the keys the message lists, in order
    | ConversionError(cause: ConversionFailure)

  type QueryBuilderResult<T> = Result<T, QueryValidationError>

  /** The pagination, filtering and ordering arguments of a many-records query. */
  datatype QueryArguments = QueryArguments(
    skip: Option<int>,
    after: Option<GraphqlId>,
    first: Option<int>,
    before: Option<GraphqlId>,
    last: Option<int>,
    filter: Option<Filter>,
    orderBy: Option<OrderBy>)
  {
    /** `QueryArguments::default()`: no argument set. */
    static function Default(): QueryArguments
    {
      QueryArguments(None, None, None, None, None, None, None)
    }
  }

  /** Identifies one record by the value of one of its scalar fields. */
  datatype RecordFinder = RecordFinder(field: ScalarFieldRef, value: PrismaValue)

  /**
   * The conversions the two extraction functions call but do not define.
   * Each fallible one returns a `QueryBuilderResult`; which inputs it accepts
   * is up to the crate that defines it.
   */
  datatype Conversions = Conversions(
    // `try_into::<Option<i64>>`, used for `skip`, `first` and `last`
    toCount: ParsedInputValue -> QueryBuilderResult<Option<int>>,
    // `try_into::<Option<GraphqlId>>`, used for `after` and `before`
    toCursor: ParsedInputValue -> QueryBuilderResult<Option<GraphqlId>>,
    // `try_into::<Option<OrderBy>>`, used for `orderBy`
    toOrderBy: ParsedInputValue -> QueryBuilderResult<Option<OrderBy>>,
    // `try_into::<Option<ParsedInputMap>>`, used for `where` in query arguments
    toOptionalMap: ParsedInputValue -> QueryBuilderResult<Option<ParsedInputMap>>,
    // `try_into::<ParsedInputMap>`, used for `where` in a record finder
    toMap: ParsedInputValue -> QueryBuilderResult<ParsedInputMap>,
    // `try_into::<PrismaValue>`, used for the value of a record finder
    toPrismaValue: ParsedInputValue -> QueryBuilderResult<PrismaValue>,
    // `extract_filter(map, model)`
    extractFilter: (ParsedInputMap, ModelRef) -> QueryBuilderResult<Filter>,
    // `model.fields().find_from_scalar(name)`
    findFromScalar: (ModelRef, string) -> Option<ScalarFieldRef>)
}
