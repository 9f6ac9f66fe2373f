/** The formatter combinators of `eth_utils/applicators.py`.

    Each combinator applies one or more formatters to a value: to one position of a sequence,
    to every position of a sequence, to a whole value under a condition, to the items of a
    mapping by key, or to the keys of a mapping by renaming them. Sequences are `seq`s and
    mappings are pair lists in iteration order; the container the result is rebuilt into
    (tuple, list, dict type) is not modelled, only its elements.
 */
module Applicators {
  import opened Exceptions
  import opened Rebuild

  /** A formatter: a callable that returns a new value or raises. */
  type Formatter<-T, U, E> = T -> Result<U, E>

  /** A condition gating a formatter. */
  type Condition<-T> = T -> bool

  /** The formatter that returns its argument. */
  function Unchanged<T, E>(x: T): Result<T, E> {
    Ok(x)
  }

  /** `apply_formatter_at_index`: format the item at position `atIndex`, keep every other item. */
  function ApplyFormatterAtIndex<T, O>(formatter: Formatter<T, T, Error<O>>, atIndex: int, value: seq<T>)
    : (r: Result<seq<T>, Error<O>>)
    ensures atIndex + 1 > |value| ==> r == Err(NotEnoughValues(|value|, atIndex + 1))
    ensures atIndex < 0 ==> r == Ok(value)
    ensures 0 <= atIndex < |value| ==>
      && (r.Ok? <==> formatter(value[atIndex]).Ok?)
      && (r.Ok? ==> |r.value| == |value| && r.value == value[atIndex := formatter(value[atIndex]).value])
      && (r.Err? ==> r.error == formatter(value[atIndex]).error)
  {
    if atIndex + 1 > |value| then
      Err(NotEnoughValues(|value|, atIndex + 1))
    else
      var steps := seq(|value|, i requires 0 <= i < |value| =>
        if i == atIndex then formatter(value[i]) else Ok(value[i]));
      assert forall i | 0 <= i < |value| && i != atIndex :: steps[i] == Ok(value[i]);
      var r := Gather(steps);
      if atIndex < 0 then
        assert r.Ok? && r.value == value;
        r
      else
        assert steps[atIndex] == formatter(value[atIndex]);
        r
  }

  /** `apply_formatters_to_sequence`: format the item at each position with the formatter at
      the same position; the two lengths must agree. */
  function ApplyFormattersToSequence<T, U, O>(formatters: seq<Formatter<T, U, Error<O>>>, sequence: seq<T>)
    : (r: Result<seq<U>, Error<O>>)
    ensures |formatters| > |sequence| ==> r == Err(TooManyFormatters(|formatters|, |sequence|))
    ensures |formatters| < |sequence| ==> r == Err(TooFewFormatters(|formatters|, |sequence|))
    ensures |formatters| == |sequence| ==>
      (r.Ok? <==> forall i | 0 <= i < |sequence| :: formatters[i](sequence[i]).Ok?)
    ensures r.Ok? ==>
      && |formatters| == |sequence| == |r.value|
      && forall i | 0 <= i < |sequence| :: formatters[i](sequence[i]) == Ok(r.value[i])
    ensures |formatters| == |sequence| && r.Err? ==>
      exists k | 0 <= k < |sequence| ::
        && formatters[k](sequence[k]) == Err(r.error)
        && forall j | 0 <= j < k :: formatters[j](sequence[j]).Ok?
  {
    if |formatters| > |sequence| then
      Err(TooManyFormatters(|formatters|, |sequence|))
    else if |formatters| < |sequence| then
      Err(TooFewFormatters(|formatters|, |sequence|))
    else
      var steps := seq(|sequence|, i requires 0 <= i < |sequence| => formatters[i](sequence[i]));
      assert forall i | 0 <= i < |sequence| :: steps[i] == formatters[i](sequence[i]);
      var r := Gather(steps);
      r
  }

  /** `apply_formatter_if`: format `value` when `condition` holds of it, else return it. */
  function ApplyFormatterIf<T, E>(condition: Condition<T>, formatter: Formatter<T, T, E>, value: T): (r: Result<T, E>)
    ensures condition(value) ==> r == formatter(value)
    ensures !condition(value) ==> r == Ok(value)
  {
    if condition(value) then formatter(value) else Ok(value)
  }

  /** The exception `apply_formatters_to_dict` raises when the formatter for `field` raised
      `e` on `item`: a TypeError or ValueError is raised again as a new exception of the same
      class that names the item and the field and is chained to `e`; any other passes through. */
  function Retag<O>(e: Error<O>, field: O, item: O): (r: Error<O>)
    ensures r.Type() == e.Type()
    ensures e.Type().IsReTagged() ==> r.FieldNotFormatted? && r.cause == e && r.field == field && r.item == item
    ensures !e.Type().IsReTagged() ==> r == e
  {
    if e.Type().IsReTagged() then FieldNotFormatted(e.Type(), item, field, e) else e
  }

  /** One step of `apply_formatters_to_dict`: the pair it yields for `entry`, or what it raises. */
  function FormatEntry<O(==)>(formatters: map<O, Formatter<O, O, Error<O>>>, entry: (O, O)): (r: Result<(O, O), Error<O>>)
    ensures entry.0 !in formatters ==> r == Ok(entry)
    ensures entry.0 in formatters ==>
      && (r.Ok? <==> formatters[entry.0](entry.1).Ok?)
      && (r.Ok? ==> r.value == (entry.0, formatters[entry.0](entry.1).value))
      && (r.Err? ==> r.error == Retag(formatters[entry.0](entry.1).error, entry.0, entry.1))
  {
    var (key, item) := entry;
    if key in formatters then
      match formatters[key](item)
      case Ok(formatted) => Ok((key, formatted))
      case Err(e) => Err(Retag(e, key, item))
    else
      Ok((key, item))
  }

  /** `apply_formatters_to_dict`: format the item of every key that has a formatter; keys and
      their order are kept, and formatters for keys `value` lacks are not used. */
  function ApplyFormattersToDict<O(==)>(formatters: map<O, Formatter<O, O, Error<O>>>, value: seq<(O, O)>)
    : (r: Result<seq<(O, O)>, Error<O>>)
    ensures r.Ok? <==>
      forall i | 0 <= i < |value| :: value[i].0 in formatters ==> formatters[value[i].0](value[i].1).Ok?
    ensures r.Ok? ==>
      && |r.value| == |value|
      && forall i | 0 <= i < |value| ::
        && r.value[i].0 == value[i].0
        && (value[i].0 in formatters ==> formatters[value[i].0](value[i].1) == Ok(r.value[i].1))
        && (value[i].0 !in formatters ==> r.value[i].1 == value[i].1)
    ensures r.Err? ==>
      exists k | 0 <= k < |value| ::
        && value[k].0 in formatters
        && (forall j | 0 <= j < k :: value[j].0 in formatters ==> formatters[value[j].0](value[j].1).Ok?)
        && formatters[value[k].0](value[k].1).Err?
        && r.error == Retag(formatters[value[k].0](value[k].1).error, value[k].0, value[k].1)
  {
    var steps := seq(|value|, i requires 0 <= i < |value| => FormatEntry(formatters, value[i]));
    assert forall i | 0 <= i < |value| :: steps[i] == FormatEntry(formatters, value[i]);
    var r := Gather(steps);
    r
  }

  /** `apply_formatter_to_array`: format every item. */
  function ApplyFormatterToArray<T, U, E>(formatter: Formatter<T, U, E>, value: seq<T>): (r: Result<seq<U>, E>)
    ensures value == [] ==> r == Ok([])
    ensures r.Ok? <==> forall i | 0 <= i < |value| :: formatter(value[i]).Ok?
    ensures r.Ok? ==> |r.value| == |value| && forall i | 0 <= i < |value| :: formatter(value[i]) == Ok(r.value[i])
    ensures r.Err? ==>
      exists k | 0 <= k < |value| ::
        && formatter(value[k]) == Err(r.error)
        && forall j | 0 <= j < k :: formatter(value[j]).Ok?
  {
    var steps := seq(|value|, i requires 0 <= i < |value| => formatter(value[i]));
    assert forall i | 0 <= i < |value| :: steps[i] == formatter(value[i]);
    var r := Gather(steps);
    r
  }

  /** Pair `k` is the first pair whose condition holds of `value`. */
  ghost predicate FirstMatchAt<T, F>(formatterConditionPairs: seq<(Condition<T>, F)>, value: T, k: int) {
    && 0 <= k < |formatterConditionPairs|
    && formatterConditionPairs[k].0(value)
    && forall j | 0 <= j < k :: !formatterConditionPairs[j].0(value)
  }

  /** The loop of `apply_one_of_formatters` over the conditions: the position of the first
      pair whose condition holds of `value`, or the number of pairs when none does. */
  function FirstMatch<T, F>(formatterConditionPairs: seq<(Condition<T>, F)>, value: T): (k: nat)
    ensures k <= |formatterConditionPairs|
    ensures k < |formatterConditionPairs| ==> formatterConditionPairs[k].0(value)
    ensures forall j | 0 <= j < k :: !formatterConditionPairs[j].0(value)
  {
    if formatterConditionPairs == [] then 0
    else if formatterConditionPairs[0].0(value) then 0
    else 1 + FirstMatch(formatterConditionPairs[1..], value)
  }

  /** `apply_one_of_formatters`: apply the formatter of the first pair whose condition holds. */
  function ApplyOneOfFormatters<T, U, O>(formatterConditionPairs: seq<(Condition<T>, Formatter<T, U, Error<O>>)>, value: T)
    : (r: Result<U, Error<O>>)
    ensures (forall i | 0 <= i < |formatterConditionPairs| :: !formatterConditionPairs[i].0(value)) ==>
      r == Err(NoConditionSatisfied)
    ensures forall k | FirstMatchAt(formatterConditionPairs, value, k) :: r == formatterConditionPairs[k].1(value)
  {
    var k := FirstMatch(formatterConditionPairs, value);
    if k < |formatterConditionPairs| then
      assert FirstMatchAt(formatterConditionPairs, value, k);
      formatterConditionPairs[k].1(value)
    else
      Err(NoConditionSatisfied)
  }

  /** `apply_key_map`: rename every key that `keyMappings` has an entry for; items and order
      are kept. */
  function ApplyKeyMap<K(==), V>(keyMappings: map<K, K>, value: seq<(K, V)>): (r: seq<(K, V)>)
    ensures |r| == |value|
    ensures forall i | 0 <= i < |value| ::
      && r[i].1 == value[i].1
      && (value[i].0 in keyMappings ==> r[i].0 == keyMappings[value[i].0])
      && (value[i].0 !in keyMappings ==> r[i].0 == value[i].0)
  {
    if value == [] then
      []
    else
      var (key, item) := value[0];
      [(if key in keyMappings then keyMappings[key] else key, item)] + ApplyKeyMap(keyMappings, value[1..])
  }
}
