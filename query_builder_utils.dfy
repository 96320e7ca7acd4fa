/**
 * The argument-extraction helpers of the query builders:
 * `extract_record_finder`, which turns the `where` argument of a
 * single-record query into a `RecordFinder`, and `extract_query_args`, which
 * folds the arguments of a many-records query into a `QueryArguments` record.
 *
 * Both are pure. The fold is modelled as a left fold over the sequence of
 * arguments; its specification is stated per field of `QueryArguments`: the
 * result is an error exactly when some argument fails to convert, and then it
 * is the first such argument's error; otherwise each field holds the
 * conversion of the last argument with that field's name, or its default.
 */
module QueryBuilderUtils {
  import opened Wrappers
  import opened QueryBuilders

  // ---------------------------------------------------------------------------
  // extract_record_finder
  // ---------------------------------------------------------------------------

  /** The index of the first argument called `name`, as `Iterator::find` picks it. */
  function FirstNamed(args: seq<ParsedArgument>, name: string): (r: Option<nat>)
    ensures r.None? <==> forall i | 0 <= i < |args| :: args[i].name != name
    ensures r.Some? ==>
      && r.value < |args|
      && args[r.value].name == name
      && forall j | 0 <= j < r.value :: args[j].name != name
  {
    if |args| == 0 then None
    else if args[0].name == name then Some(0)
    else
      match FirstNamed(args[1..], name)
      case None => None
      case Some(k) => Some(k + 1)
  }

  /** The keys of a parsed input map, in its iteration order. */
  function Keys(m: ParsedInputMap): (keys: seq<string>)
    ensures |keys| == |m|
    ensures forall k | 0 <= k < |m| :: keys[k] == m[k].key
  {
    if |m| == 0 then [] else [m[0].key] + Keys(m[1..])
  }

  /**
   * What the callers of `extract_record_finder` guarantee, so that none of its
   * `unwrap`s panics: there is a `where` argument, the first one holds a map,
   * and when that map has exactly one entry, its key names a scalar field of
   * the model and its value converts to a plain value.
   */
  predicate RecordFinderExtractable(cv: Conversions, args: seq<ParsedArgument>, model: ModelRef)
  {
    match FirstNamed(args, "where")
    case None => false
    case Some(i) =>
      match cv.toMap(args[i].value)
      case Err(_) => false
      case Ok(m) =>
        |m| == 1 ==>
          cv.findFromScalar(model, m[0].key).Some? && cv.toPrismaValue(m[0].value).Ok?
  }

  /**
   * `extract_record_finder`: the first `where` argument decides. Its map must
   * have exactly one entry; otherwise the result is an assertion error that
   * lists every key of the map, in order.
   */
  function ExtractRecordFinder(cv: Conversions, args: seq<ParsedArgument>, model: ModelRef)
    : (r: QueryBuilderResult<RecordFinder>)
    requires RecordFinderExtractable(cv, args, model)
    ensures forall i | 0 <= i < |args| && args[i].name == "where" ::
      (forall j | 0 <= j < i :: args[j].name != "where") ==>
        && cv.toMap(args[i].value).Ok?
        && var m := cv.toMap(args[i].value).value;
           && (r.Err? <==> |m| != 1)
           && (r.Err? ==>
                && r.error.AssertionError?
                && |r.error.keys| == |m|
                && forall k | 0 <= k < |m| :: r.error.keys[k] == m[k].key)
           && (r.Ok? ==>
                && cv.findFromScalar(model, m[0].key) == Some(r.value.field)
                && cv.toPrismaValue(m[0].value) == Ok(r.value.value))
  {
    var i := FirstNamed(args, "where").value;
    var values := cv.toMap(args[i].value).value;
    if |values| != 1 then
      Err(AssertionError(Keys(values)))
    else
      var selector := values[0];
      Ok(RecordFinder(
        cv.findFromScalar(model, selector.key).value,
        cv.toPrismaValue(selector.value).value))
  }

  /** Appending arguments after a `where` argument does not move the first one. */
  lemma {:induction false} FirstNamedOfPrefix(args: seq<ParsedArgument>, more: seq<ParsedArgument>, name: string)
    requires FirstNamed(args, name).Some?
    ensures FirstNamed(args + more, name) == FirstNamed(args, name)
  {
    if args[0].name != name {
      assert (args + more)[1..] == args[1..] + more;
      FirstNamedOfPrefix(args[1..], more, name);
    }
  }

  /** Arguments without the name in front of the first one shift it and nothing else. */
  lemma {:induction false} FirstNamedAfterOthers(pre: seq<ParsedArgument>, args: seq<ParsedArgument>, name: string)
    requires forall i | 0 <= i < |pre| :: pre[i].name != name
    ensures FirstNamed(pre + args, name) ==
      match FirstNamed(args, name)
      case None => None
      case Some(k) => Some(|pre| + k)
  {
    if |pre| > 0 {
      assert (pre + args)[0] == pre[0];
      assert (pre + args)[1..] == pre[1..] + args;
      FirstNamedAfterOthers(pre[1..], args, name);
    } else {
      assert pre + args == args;
    }
  }

  /** Only the first `where` argument matters: anything after it can be added. */
  lemma FinderIgnoresLaterArguments(cv: Conversions, args: seq<ParsedArgument>, more: seq<ParsedArgument>, model: ModelRef)
    requires RecordFinderExtractable(cv, args, model)
    ensures RecordFinderExtractable(cv, args + more, model)
    ensures ExtractRecordFinder(cv, args + more, model) == ExtractRecordFinder(cv, args, model)
  {
    FirstNamedOfPrefix(args, more, "where");
    var i := FirstNamed(args, "where").value;
    assert (args + more)[i] == args[i];
  }

  /** Arguments with other names, before the first `where`, do not change the finder. */
  lemma FinderIgnoresOtherArguments(cv: Conversions, pre: seq<ParsedArgument>, args: seq<ParsedArgument>, model: ModelRef)
    requires forall i | 0 <= i < |pre| :: pre[i].name != "where"
    requires RecordFinderExtractable(cv, args, model)
    ensures RecordFinderExtractable(cv, pre + args, model)
    ensures ExtractRecordFinder(cv, pre + args, model) == ExtractRecordFinder(cv, args, model)
  {
    FirstNamedAfterOthers(pre, args, "where");
    var i := FirstNamed(args, "where").value;
    assert (pre + args)[|pre| + i] == args[i];
  }

  // ---------------------------------------------------------------------------
  // extract_query_args: the fold
  // ---------------------------------------------------------------------------

  /**
   * One step of the fold in `extract_query_args`. An error accumulated so far
   * is passed on unchanged. Otherwise a recognised argument name replaces
   * exactly one field with the converted value (`..res` keeps the others),
   * a failed conversion becomes the result, and an unknown name changes
   * nothing.
   */
  function Step(cv: Conversions, model: ModelRef, result: QueryBuilderResult<QueryArguments>, arg: ParsedArgument)
    : (r: QueryBuilderResult<QueryArguments>)
    ensures result.Err? ==> r == result
    ensures result.Ok? ==> (r.Err? <==> Fails(cv, model, arg))
    ensures result.Ok? && r.Err? ==> r.error == FailureOf(cv, model, arg)
    ensures result.Ok? && r.Ok? ==> forall f ::
      Get(r.value, f) ==
        if FieldNamed(arg.name) == Some(f) then Convert(cv, model, f, arg.value).value
        else Get(result.value, f)
  {
    match result
    case Err(_) => result
    case Ok(res) =>
      match arg.name
      case "skip" =>
        (match cv.toCount(arg.value)
         case Err(e) => Err(e)
         case Ok(n) => Ok(res.(skip := n)))
      case "first" =>
        (match cv.toCount(arg.value)
         case Err(e) => Err(e)
         case Ok(n) => Ok(res.(first := n)))
      case "last" =>
        (match cv.toCount(arg.value)
         case Err(e) => Err(e)
         case Ok(n) => Ok(res.(last := n)))
      case "after" =>
        (match cv.toCursor(arg.value)
         case Err(e) => Err(e)
         case Ok(c) => Ok(res.(after := c)))
      case "before" =>
        (match cv.toCursor(arg.value)
         case Err(e) => Err(e)
         case Ok(c) => Ok(res.(before := c)))
      case "orderBy" =>
        (match cv.toOrderBy(arg.value)
         case Err(e) => Err(e)
         case Ok(o) => Ok(res.(orderBy := o)))
      case "where" =>
        (match cv.toOptionalMap(arg.value)
         case Err(e) => Err(e)
         case Ok(None) => Ok(res.(filter := None))
         case Ok(Some(m)) =>
           match cv.extractFilter(m, model)
           case Err(e) => Err(e)
           case Ok(flt) => Ok(res.(filter := Some(flt))))
      case _ => Ok(res)
  }

  /** `Iterator::fold` of `Step` over the arguments, in order. */
  function Fold(cv: Conversions, model: ModelRef, result: QueryBuilderResult<QueryArguments>, args: seq<ParsedArgument>)
    : (r: QueryBuilderResult<QueryArguments>)
    ensures result.Err? ==> r == result
    decreases |args|
  {
    if |args| == 0 then result
    else Fold(cv, model, Step(cv, model, result, args[0]), args[1..])
  }

  /**
   * `extract_query_args`: the fold of the arguments, seeded with the default
   * record. It fails exactly when some argument fails to convert, with the
   * error of the first that does; otherwise every field holds the conversion
   * of the last argument that names it, or its default when none does.
   */
  function ExtractQueryArgs(cv: Conversions, args: seq<ParsedArgument>, model: ModelRef)
    : (r: QueryBuilderResult<QueryArguments>)
    ensures r.Err? <==> exists i | 0 <= i < |args| :: Fails(cv, model, args[i])
    ensures r.Err? ==> exists i | 0 <= i < |args| ::
      && Fails(cv, model, args[i])
      && (forall j | 0 <= j < i :: !Fails(cv, model, args[j]))
      && r.error == FailureOf(cv, model, args[i])
    ensures r.Ok? ==> forall f :: Get(r.value, f) == LastWrite(cv, model, QueryArguments.Default(), args, f)
  {
    FoldSpec(cv, model, QueryArguments.Default(), args);
    Fold(cv, model, Ok(QueryArguments.Default()), args)
  }

  // ---------------------------------------------------------------------------
  // extract_query_args: the per-field specification
  // ---------------------------------------------------------------------------

  /** The fields of `QueryArguments` that an argument can set. */
  datatype Field = SkipField | FirstField | LastField | AfterField | BeforeField | OrderByField | FilterField

  /** The argument name that sets each field. */
  function NameOf(f: Field): string
  {
    match f
    case SkipField => "skip"
    case FirstField => "first"
    case LastField => "last"
    case AfterField => "after"
    case BeforeField => "before"
    case OrderByField => "orderBy"
    case FilterField => "where"
  }

  /** The field an argument name sets, if the name is recognised: the inverse of `NameOf`. */
  function FieldNamed(name: string): (r: Option<Field>)
    ensures r.Some? ==> NameOf(r.value) == name
    ensures r.None? ==> forall f: Field :: NameOf(f) != name
  {
    match name
    case "skip" => Some(SkipField)
    case "first" => Some(FirstField)
    case "last" => Some(LastField)
    case "after" => Some(AfterField)
    case "before" => Some(BeforeField)
    case "orderBy" => Some(OrderByField)
    case "where" => Some(FilterField)
    case _ => None
  }

  /** Every field has its own name. */
  lemma NameOfRoundTrip(f: Field)
    ensures FieldNamed(NameOf(f)) == Some(f)
  {
  }

  /** The value of one field, whichever its type. */
  datatype FieldValue =
    | Count(count: Option<int>)
    | Cursor(cursor: Option<GraphqlId>)
    | Ordering(orderBy: Option<OrderBy>)
    | Filtering(filter: Option<Filter>)

  function Get(q: QueryArguments, f: Field): FieldValue
  {
    match f
    case SkipField => Count(q.skip)
    case FirstField => Count(q.first)
    case LastField => Count(q.last)
    case AfterField => Cursor(q.after)
    case BeforeField => Cursor(q.before)
    case OrderByField => Ordering(q.orderBy)
    case FilterField => Filtering(q.filter)
  }

  /** A record is determined by its fields. */
  lemma GetExtensional(a: QueryArguments, b: QueryArguments)
    requires forall f :: Get(a, f) == Get(b, f)
    ensures a == b
  {
    assert Get(a, SkipField) == Get(b, SkipField);
    assert Get(a, FirstField) == Get(b, FirstField);
    assert Get(a, LastField) == Get(b, LastField);
    assert Get(a, AfterField) == Get(b, AfterField);
    assert Get(a, BeforeField) == Get(b, BeforeField);
    assert Get(a, OrderByField) == Get(b, OrderByField);
    assert Get(a, FilterField) == Get(b, FilterField);
  }

  /**
   * The value an argument for field `f` converts to. A `where` value converts
   * to an optional map; a present map is then turned into a filter for the
   * model, and either step may fail.
   */
  function Convert(cv: Conversions, model: ModelRef, f: Field, v: ParsedInputValue): QueryBuilderResult<FieldValue>
  {
    match f
    case SkipField | FirstField | LastField =>
      (match cv.toCount(v) case Err(e) => Err(e) case Ok(n) => Ok(Count(n)))
    case AfterField | BeforeField =>
      (match cv.toCursor(v) case Err(e) => Err(e) case Ok(c) => Ok(Cursor(c)))
    case OrderByField =>
      (match cv.toOrderBy(v) case Err(e) => Err(e) case Ok(o) => Ok(Ordering(o)))
    case FilterField =>
      match cv.toOptionalMap(v)
      case Err(e) => Err(e)
      case Ok(None) => Ok(Filtering(None))
      case Ok(Some(m)) =>
        match cv.extractFilter(m, model)
        case Err(e) => Err(e)
        case Ok(flt) => Ok(Filtering(Some(flt)))
  }

  /** Whether an argument fails to convert; an argument with an unknown name never does. */
  predicate Fails(cv: Conversions, model: ModelRef, arg: ParsedArgument)
  {
    FieldNamed(arg.name).Some? && Convert(cv, model, FieldNamed(arg.name).value, arg.value).Err?
  }

  /** The error a failing argument reports. */
  function FailureOf(cv: Conversions, model: ModelRef, arg: ParsedArgument): QueryValidationError
    requires Fails(cv, model, arg)
  {
    Convert(cv, model, FieldNamed(arg.name).value, arg.value).error
  }

  /** The index of the last argument called `name`, if any. */
  function LastNamed(args: seq<ParsedArgument>, name: string): (r: Option<nat>)
    ensures r.None? <==> forall i | 0 <= i < |args| :: args[i].name != name
    ensures r.Some? ==>
      && r.value < |args|
      && args[r.value].name == name
      && forall j | r.value < j < |args| :: args[j].name != name
  {
    if |args| == 0 then None
    else if args[|args| - 1].name == name then Some(|args| - 1)
    else
      assert forall i | 0 <= i < |args| - 1 :: args[..|args| - 1][i] == args[i];
      LastNamed(args[..|args| - 1], name)
  }

  /**
   * The value field `f` ends with, starting from `seed`: the conversion of the
   * last argument that names it, or the seed's own value when none does.
   */
  function LastWrite(cv: Conversions, model: ModelRef, seed: QueryArguments, args: seq<ParsedArgument>, f: Field): FieldValue
  {
    match LastNamed(args, NameOf(f))
    case None => Get(seed, f)
    case Some(i) =>
      match Convert(cv, model, f, args[i].value)
      case Ok(x) => x
      case Err(_) => Get(seed, f)
  }

  // ---------------------------------------------------------------------------
  // extract_query_args: lemmas
  // ---------------------------------------------------------------------------

  /** Folding over one more argument is one more step. */
  lemma {:induction false} FoldSnoc(cv: Conversions, model: ModelRef, result: QueryBuilderResult<QueryArguments>,
                                    args: seq<ParsedArgument>, arg: ParsedArgument)
    ensures Fold(cv, model, result, args + [arg]) == Step(cv, model, Fold(cv, model, result, args), arg)
    decreases |args|
  {
    if |args| > 0 {
      assert (args + [arg])[1..] == args[1..] + [arg];
      FoldSnoc(cv, model, Step(cv, model, result, args[0]), args[1..], arg);
    }
  }

  /** Folding over a concatenation folds over each part in turn. */
  lemma {:induction false} FoldAppend(cv: Conversions, model: ModelRef, result: QueryBuilderResult<QueryArguments>,
                                      args: seq<ParsedArgument>, more: seq<ParsedArgument>)
    ensures Fold(cv, model, result, args + more) == Fold(cv, model, Fold(cv, model, result, args), more)
    decreases |args|
  {
    if |args| > 0 {
      assert (args + more)[0] == args[0];
      assert (args + more)[1..] == args[1..] + more;
      FoldAppend(cv, model, Step(cv, model, result, args[0]), args[1..], more);
    } else {
      assert args + more == more;
    }
  }

  /**
   * The fold from any record: an error exactly when some argument fails, and
   * then the first failing argument's error; otherwise every field is the
   * last write to it, or the seed's value.
   */
  lemma {:induction false} FoldSpec(cv: Conversions, model: ModelRef, seed: QueryArguments, args: seq<ParsedArgument>)
    ensures var r := Fold(cv, model, Ok(seed), args);
      && (r.Err? <==> exists i | 0 <= i < |args| :: Fails(cv, model, args[i]))
      && (r.Err? ==> exists i | 0 <= i < |args| ::
            && Fails(cv, model, args[i])
            && (forall j | 0 <= j < i :: !Fails(cv, model, args[j]))
            && r.error == FailureOf(cv, model, args[i]))
      && (r.Ok? ==> forall f :: Get(r.value, f) == LastWrite(cv, model, seed, args, f))
  {
    var r := Fold(cv, model, Ok(seed), args);
    if |args| == 0 {
    } else {
      var n := |args| - 1;
      var init, x := args[..n], args[n];
      assert args == init + [x];
      assert forall i | 0 <= i < n :: init[i] == args[i];
      FoldSnoc(cv, model, Ok(seed), init, x);
      FoldSpec(cv, model, seed, init);
      var p := Fold(cv, model, Ok(seed), init);
      assert r == Step(cv, model, p, x);
      if p.Err? {
        var i :| 0 <= i < n && Fails(cv, model, init[i]) && (forall j | 0 <= j < i :: !Fails(cv, model, init[j]))
          && p.error == FailureOf(cv, model, init[i]);
        assert Fails(cv, model, args[i]);
      } else if Fails(cv, model, x) {
        assert Fails(cv, model, args[n]);
        assert forall j | 0 <= j < n :: !Fails(cv, model, args[j]);
      } else {
        assert forall i | 0 <= i < |args| :: !Fails(cv, model, args[i]);
        forall f
          ensures Get(r.value, f) == LastWrite(cv, model, seed, args, f)
        {
          NameOfRoundTrip(f);
          if x.name == NameOf(f) {
            assert LastNamed(args, NameOf(f)) == Some(n);
          } else {
            assert LastNamed(args, NameOf(f)) == LastNamed(init, NameOf(f));
          }
        }
      }
    }
  }

  /** No arguments give the default record. */
  lemma NoArgumentsYieldDefault(cv: Conversions, model: ModelRef)
    ensures ExtractQueryArgs(cv, [], model) == Ok(QueryArguments.Default())
  {
  }

  /** An argument with an unknown name leaves the accumulated record as it is. */
  lemma UnknownArgumentIsNoOp(cv: Conversions, model: ModelRef, res: QueryArguments, arg: ParsedArgument)
    requires FieldNamed(arg.name).None?
    ensures Step(cv, model, Ok(res), arg) == Ok(res)
  {
  }

  /** The arguments whose names are recognised, in order. */
  function Recognised(args: seq<ParsedArgument>): (r: seq<ParsedArgument>)
    ensures forall a :: a in r <==> a in args && FieldNamed(a.name).Some?
  {
    if |args| == 0 then []
    else if FieldNamed(args[0].name).Some? then [args[0]] + Recognised(args[1..])
    else Recognised(args[1..])
  }

  /** Dropping every argument with an unknown name does not change the fold. */
  lemma {:induction false} UnknownArgumentsIgnored(cv: Conversions, model: ModelRef,
                                                   result: QueryBuilderResult<QueryArguments>, args: seq<ParsedArgument>)
    ensures Fold(cv, model, result, args) == Fold(cv, model, result, Recognised(args))
    decreases |args|
  {
    if |args| > 0 {
      UnknownArgumentsIgnored(cv, model, Step(cv, model, result, args[0]), args[1..]);
      if FieldNamed(args[0].name).None? {
        assert Step(cv, model, result, args[0]) == result;
      }
    }
  }

  /** Arguments whose names are all unknown yield the default record. */
  lemma OnlyUnknownNamesYieldDefault(cv: Conversions, args: seq<ParsedArgument>, model: ModelRef)
    requires forall i | 0 <= i < |args| :: FieldNamed(args[i].name).None?
    ensures ExtractQueryArgs(cv, args, model) == Ok(QueryArguments.Default())
  {
    UnknownArgumentsIgnored(cv, model, Ok(QueryArguments.Default()), args);
    assert Recognised(args) == [];
  }

  /** Two accumulators that are the same error, or records that agree outside field `f`. */
  predicate AgreeOutside(x: QueryBuilderResult<QueryArguments>, y: QueryBuilderResult<QueryArguments>, f: Field)
  {
    || (x.Err? && x == y)
    || (x.Ok? && y.Ok? && forall g | g != f :: Get(x.value, g) == Get(y.value, g))
  }

  /** Folding the same arguments keeps two accumulators agreeing outside `f`. */
  lemma {:induction false} FoldKeepsAgreement(cv: Conversions, model: ModelRef, x: QueryBuilderResult<QueryArguments>,
                                              y: QueryBuilderResult<QueryArguments>, args: seq<ParsedArgument>, f: Field)
    requires AgreeOutside(x, y, f)
    ensures AgreeOutside(Fold(cv, model, x, args), Fold(cv, model, y, args), f)
    decreases |args|
  {
    if |args| > 0 {
      var a := args[0];
      var x', y' := Step(cv, model, x, a), Step(cv, model, y, a);
      if x.Ok? && x'.Ok? {
        forall g | g != f
          ensures Get(x'.value, g) == Get(y'.value, g)
        {
        }
      }
      FoldKeepsAgreement(cv, model, x', y', args[1..], f);
    }
  }

  /**
   * When the same name occurs twice, the later occurrence decides: an earlier
   * argument that converts can be dropped without changing the result.
   */
  lemma LaterOccurrenceWins(cv: Conversions, model: ModelRef, pre: seq<ParsedArgument>, a: ParsedArgument,
                            mid: seq<ParsedArgument>, b: ParsedArgument, post: seq<ParsedArgument>)
    requires a.name == b.name
    requires !Fails(cv, model, a)
    ensures ExtractQueryArgs(cv, pre + [a] + mid + [b] + post, model) == ExtractQueryArgs(cv, pre + mid + [b] + post, model)
  {
    var seed := Ok(QueryArguments.Default());
    var p := Fold(cv, model, seed, pre);
    assert pre + [a] + mid + [b] + post == pre + ([a] + (mid + [b] + post));
    assert pre + mid + [b] + post == pre + (mid + [b] + post);
    FoldAppend(cv, model, seed, pre, [a] + (mid + [b] + post));
    FoldAppend(cv, model, seed, pre, mid + [b] + post);
    assert ([a] + (mid + [b] + post))[1..] == mid + [b] + post;
    var x := Step(cv, model, p, a);
    assert Fold(cv, model, p, [a] + (mid + [b] + post)) == Fold(cv, model, x, mid + [b] + post);
    if FieldNamed(a.name).None? {
      assert x == p;
    } else {
      var f := FieldNamed(a.name).value;
      assert AgreeOutside(x, p, f);
      FoldKeepsAgreement(cv, model, x, p, mid, f);
      var x1, p1 := Fold(cv, model, x, mid), Fold(cv, model, p, mid);
      var x2, p2 := Step(cv, model, x1, b), Step(cv, model, p1, b);
      if x2.Ok? {
        forall g
          ensures Get(x2.value, g) == Get(p2.value, g)
        {
        }
        GetExtensional(x2.value, p2.value);
      }
      assert x2 == p2;
      FoldAppend(cv, model, x, mid, [b] + post);
      FoldAppend(cv, model, p, mid, [b] + post);
      assert ([b] + post)[1..] == post;
      assert mid + [b] + post == mid + ([b] + post);
    }
  }
}
