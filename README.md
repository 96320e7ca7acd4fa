# Query-argument extraction of the query engine

This project models the two argument-extraction helpers of the query
engine's query builders (`query-engine/core/src/query_builders/utils.rs`) and
proves what they promise:

- `extract_record_finder` turns the arguments of a single-record query into a
  `RecordFinder`. It takes the first `where` argument, whose value is a map, and
  insists that the map has exactly one entry. With one entry, the key names a
  scalar field of the model and the value is what that field must equal. With
  any other number of entries, the result is an assertion error that lists the
  map's keys.
- `extract_query_args` folds the arguments of a many-records query into a
  `QueryArguments` record (`skip`, `first`, `last`, `after`, `before`,
  `orderBy`, `where`). The fold starts from the default record, and each
  recognised argument replaces one field with its converted value. Arguments
  with any other name are ignored. The first failed conversion becomes the
  result and stops everything after it.

Files:

- `wrappers.dfy`: `Option` and `Result`.
- `query_builders.dfy`: the parsed arguments, `QueryArguments`,
  `RecordFinder`, `QueryValidationError`, and `Conversions`. `Conversions`
  holds the conversions these helpers call but do not define: the `try_into`
  implementations, `extract_filter` and `find_from_scalar`. It is a value of
  total functions that every operation takes as a parameter. The types those
  conversions work on are opaque.
- `query_builder_utils.dfy`: the two helpers, the per-field specification of
  the fold, and the lemmas.

The fold has two descriptions. `Step` and `Fold` follow the closure and
`Iterator::fold` of the source. `LastWrite` states the result field by field:
the conversion of the last argument that names the field, or the default.
`FoldSpec` proves the two agree. It also proves that the fold fails exactly
when some argument fails, and then with the first failing argument's error.

## Model

| member | source | states |
|---|---|---|
| `QueryBuilderUtils.FirstNamed` | query-engine/core/src/query_builders/utils.rs:12 | `find` returns the index of an argument with the name, with no earlier argument of that name, and returns nothing exactly when no argument has the name |
| `QueryBuilderUtils.Keys` | query-engine/core/src/query_builders/utils.rs:18 | the keys listed by the assertion message are the map's keys, one per entry, in iteration order |
| `QueryBuilderUtils.ExtractRecordFinder` | query-engine/core/src/query_builders/utils.rs:11-29 | for the first `where` argument's map: the result is an error exactly when the map does not have one entry, and that error is an `AssertionError` listing every key in order; otherwise the finder's field is the model's scalar field named by the key and its value is the entry's converted value |
| `QueryBuilderUtils.FirstNamedOfPrefix` | query-engine/core/src/query_builders/utils.rs:12 | arguments appended after a match do not change which argument `find` picks |
| `QueryBuilderUtils.FirstNamedAfterOthers` | query-engine/core/src/query_builders/utils.rs:12 | arguments with other names placed in front shift the found index by their number and change nothing else |
| `QueryBuilderUtils.FinderIgnoresLaterArguments` | query-engine/core/src/query_builders/utils.rs:12-28 | only the first `where` argument matters: appending any arguments keeps the caller's guarantee and the resulting finder or error |
| `QueryBuilderUtils.FinderIgnoresOtherArguments` | query-engine/core/src/query_builders/utils.rs:12-28 | non-`where` arguments in front of the arguments keep the caller's guarantee and the resulting finder or error |
| `QueryBuilderUtils.Step` | query-engine/core/src/query_builders/utils.rs:37-77 | an error accumulator is passed on unchanged; from a record, the step fails exactly when the argument's conversion fails, with its error; otherwise the field the name selects gets the converted value and every other field is carried over |
| `QueryBuilderUtils.Fold` | query-engine/core/src/query_builders/utils.rs:35-38 | once the accumulator is an error, folding any further arguments returns that same error |
| `QueryBuilderUtils.ExtractQueryArgs` | query-engine/core/src/query_builders/utils.rs:34-78 | the result is an error exactly when some argument fails to convert, and then it is the error of the first failing argument; otherwise every field is the conversion of the last argument naming it, or the default |
| `QueryBuilderUtils.FieldNamed` | query-engine/core/src/query_builders/utils.rs:39-72 | a recognised name selects the field whose name it is; an unrecognised name is the name of no field |
| `QueryBuilderUtils.NameOfRoundTrip` | query-engine/core/src/query_builders/utils.rs:39-71 | each of the seven fields is selected by its own argument name |
| `QueryBuilderUtils.LastNamed` | query-engine/core/src/query_builders/utils.rs:35-37 | the index of an argument with the name after which no argument has that name, or nothing exactly when no argument has it |
| `QueryBuilderUtils.FoldSnoc` | query-engine/core/src/query_builders/utils.rs:35-37 | folding over one more argument applies one more step to the fold so far |
| `QueryBuilderUtils.FoldAppend` | query-engine/core/src/query_builders/utils.rs:35-37 | folding over a concatenation folds the first part and then the second from that result |
| `QueryBuilderUtils.FoldSpec` | query-engine/core/src/query_builders/utils.rs:35-77 | from any seed record: an error exactly when some argument fails, with the first failing argument's error; otherwise each field is the last write to it, or the seed's value |
| `QueryBuilderUtils.NoArgumentsYieldDefault` | query-engine/core/src/query_builders/utils.rs:34-37 | no arguments give `Ok` of the default record |
| `QueryBuilderUtils.UnknownArgumentIsNoOp` | query-engine/core/src/query_builders/utils.rs:72 | an argument with an unrecognised name leaves the accumulated record unchanged |
| `QueryBuilderUtils.UnknownArgumentsIgnored` | query-engine/core/src/query_builders/utils.rs:72 | removing every argument with an unrecognised name does not change the fold's result, from any accumulator |
| `QueryBuilderUtils.OnlyUnknownNamesYieldDefault` | query-engine/core/src/query_builders/utils.rs:34-37 | arguments whose names are all unrecognised give `Ok` of the default record |
| `QueryBuilderUtils.FoldKeepsAgreement` | query-engine/core/src/query_builders/utils.rs:40-72 | two accumulators that are the same error, or records that differ only in one field, stay so after folding the same arguments |
| `QueryBuilderUtils.LaterOccurrenceWins` | query-engine/core/src/query_builders/utils.rs:35-37 | when a name occurs twice, dropping the earlier occurrence (if it converts) does not change the result: the later one decides the field |

## Left out

- The schema reconciliation (re-introspection) engine is not part of this model. Only its database-backed integration tests exist as source, and they contain no implementation to model.
- The conversions (`try_into`), `extract_filter` and `find_from_scalar` are defined in other crates. They are fields of `Conversions`, total functions passed as a parameter. The properties hold for every choice of them.
- `ParsedInputValue`, `GraphqlId`, `OrderBy`, `Filter`, `PrismaValue`, the scalar field and the model are opaque types, because their structure belongs to other crates.
- `QueryArguments` and `RecordFinder` belong to the connector crate. `QueryArguments::default()` is taken to leave every field unset (`None`).
- The `skip`, `first` and `last` fields are unbounded integers. Their 64-bit width is the conversion's concern and is not modelled.
- `ParsedInputMap` is a sequence of entries in the map's iteration order. The map's key uniqueness and key ordering are not modelled, because neither helper depends on them.
- A conversion error turned into a `QueryValidationError` by `?` is modelled as the conversion returning that error directly.
- The `unwrap` panics of `extract_record_finder` are a precondition, `RecordFinderExtractable`. These are a missing `where` argument, a `where` value that is not a map, an unknown scalar field name and an unconvertible value. No behaviour is modelled for them.
- `ExtractRecordFinder`: the assertion error carries the list of keys, not the English message with the keys joined by ", ".
