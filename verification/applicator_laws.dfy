/** Laws relating the combinators of `eth_utils/applicators.py` to one another and to
    independent reference definitions. */
module ApplicatorLaws {
  import opened Exceptions
  import opened Rebuild
  import opened Dicts
  import opened Applicators

  /** Formatting one position is formatting every position, with the given formatter at
      `atIndex` and formatters that change nothing elsewhere. */
  lemma AtIndexIsSequenceOfUnchanged<T, O>(formatter: Formatter<T, T, Error<O>>, atIndex: int, value: seq<T>)
    requires atIndex < |value|
    ensures ApplyFormatterAtIndex(formatter, atIndex, value)
         == ApplyFormattersToSequence(seq(|value|, i => if i == atIndex then formatter else Unchanged), value)
  {
    var formatters: seq<Formatter<T, T, Error<O>>> := seq(|value|, i => if i == atIndex then formatter else Unchanged);
    var steps := seq(|value|, i requires 0 <= i < |value| => formatters[i](value[i]));
    assert steps == seq(|value|, i requires 0 <= i < |value| =>
      if i == atIndex then formatter(value[i]) else Ok(value[i]));
  }

  /** One formatter repeated for every position is the same as `apply_formatter_to_array`. */
  lemma SequenceOfCopiesIsArray<T, U, O>(formatter: Formatter<T, U, Error<O>>, value: seq<T>)
    ensures ApplyFormattersToSequence(seq(|value|, _ => formatter), value) == ApplyFormatterToArray(formatter, value)
  {
    var formatters: seq<Formatter<T, U, Error<O>>> := seq(|value|, _ => formatter);
    var bySequence := ApplyFormattersToSequence(formatters, value);
    var byArray := ApplyFormatterToArray(formatter, value);
    assert forall i | 0 <= i < |value| :: formatters[i](value[i]) == formatter(value[i]);
    if byArray.Ok? {
      assert bySequence.value == byArray.value;
    } else {
      var k :| 0 <= k < |value| && formatters[k](value[k]) == Err(bySequence.error)
        && forall j | 0 <= j < k :: formatters[j](value[j]).Ok?;
      var m :| 0 <= m < |value| && formatter(value[m]) == Err(byArray.error)
        && forall j | 0 <= j < m :: formatter(value[j]).Ok?;
      assert k == m;
    }
  }

  /** Formatting every item splits over concatenation: the items of `a` are formatted before
      those of `b`, and a failure in `a` wins. */
  lemma ArrayAppend<T, U, E>(formatter: Formatter<T, U, E>, a: seq<T>, b: seq<T>)
    ensures ApplyFormatterToArray(formatter, a + b)
         == (var x :- ApplyFormatterToArray(formatter, a); var y :- ApplyFormatterToArray(formatter, b); Ok(x + y))
  {
    var sa := seq(|a|, i requires 0 <= i < |a| => formatter(a[i]));
    var sb := seq(|b|, i requires 0 <= i < |b| => formatter(b[i]));
    assert seq(|a + b|, i requires 0 <= i < |a + b| => formatter((a + b)[i])) == sa + sb;
    GatherAppend(sa, sb);
  }

  /** Formatters that change nothing give back the input array. */
  lemma ArrayOfUnchangedIsIdentity<T, E>(formatter: Formatter<T, T, E>, value: seq<T>)
    requires forall x :: formatter(x) == Ok(x)
    ensures ApplyFormatterToArray(formatter, value) == Ok(value)
  {
    var r := ApplyFormatterToArray(formatter, value);
    assert r.Ok?;
    assert r.value == value;
  }

  /** Formatters that change nothing give back the input sequence. */
  lemma SequenceOfUnchangedIsIdentity<T, O>(formatters: seq<Formatter<T, T, Error<O>>>, value: seq<T>)
    requires |formatters| == |value|
    requires forall i, x | 0 <= i < |formatters| :: formatters[i](x) == Ok(x)
    ensures ApplyFormattersToSequence(formatters, value) == Ok(value)
  {
    var r := ApplyFormattersToSequence(formatters, value);
    assert forall i | 0 <= i < |value| :: formatters[i](value[i]) == Ok(value[i]);
    assert r.Ok?;
    assert r.value == value;
  }

  /** A formatter that changes nothing, at any index in range, gives back the input. */
  lemma AtIndexOfUnchangedIsIdentity<T, O>(formatter: Formatter<T, T, Error<O>>, atIndex: int, value: seq<T>)
    requires atIndex < |value|
    requires forall x :: formatter(x) == Ok(x)
    ensures ApplyFormatterAtIndex(formatter, atIndex, value) == Ok(value)
  {
    if 0 <= atIndex {
      assert value[atIndex := value[atIndex]] == value;
    }
  }

  /** Formatters that change nothing give back the input mapping, whichever keys they have. */
  lemma DictOfUnchangedIsIdentity<O>(formatters: map<O, Formatter<O, O, Error<O>>>, value: seq<(O, O)>)
    requires forall k, x | k in formatters :: formatters[k](x) == Ok(x)
    ensures ApplyFormattersToDict(formatters, value) == Ok(value)
  {
    var r := ApplyFormattersToDict(formatters, value);
    forall i | 0 <= i < |value| && value[i].0 in formatters
      ensures formatters[value[i].0](value[i].1) == Ok(value[i].1)
    {
    }
    assert r.Ok?;
    forall i | 0 <= i < |value|
      ensures r.value[i] == value[i]
    {
    }
    assert r.value == value;
  }

  /** Only the formatters registered under keys of `value` matter: two formatter mappings that
      agree on those keys give the same outcome, so formatters for absent keys are never used. */
  lemma DictDependsOnlyOnUsedFormatters<O>(
    formatters: map<O, Formatter<O, O, Error<O>>>, others: map<O, Formatter<O, O, Error<O>>>, value: seq<(O, O)>)
    requires forall i | 0 <= i < |value| :: value[i].0 in formatters <==> value[i].0 in others
    requires forall i | 0 <= i < |value| && value[i].0 in formatters :: formatters[value[i].0] == others[value[i].0]
    ensures ApplyFormattersToDict(formatters, value) == ApplyFormattersToDict(others, value)
  {
    assert seq(|value|, i requires 0 <= i < |value| => FormatEntry(formatters, value[i]))
        == seq(|value|, i requires 0 <= i < |value| => FormatEntry(others, value[i]));
  }

  /** The conditions of a concatenation are searched in order: a match in `first` is the
      first match, and otherwise the search continues into `rest`. */
  lemma {:induction false} FirstMatchAppend<T, F>(first: seq<(Condition<T>, F)>, rest: seq<(Condition<T>, F)>, value: T)
    ensures FirstMatch(first + rest, value)
         == if FirstMatch(first, value) < |first| then FirstMatch(first, value) else |first| + FirstMatch(rest, value)
  {
    if first == [] {
      assert first + rest == rest;
    } else {
      assert (first + rest)[0] == first[0];
      assert (first + rest)[1..] == first[1..] + rest;
      FirstMatchAppend(first[1..], rest, value);
    }
  }

  /** The pairs are tried in order: a match among the first ones makes the later ones
      irrelevant, and pairs that do not match are skipped. */
  lemma OneOfAppend<T, U, O>(
    first: seq<(Condition<T>, Formatter<T, U, Error<O>>)>, rest: seq<(Condition<T>, Formatter<T, U, Error<O>>)>, value: T)
    ensures (exists i | 0 <= i < |first| :: first[i].0(value)) ==>
      ApplyOneOfFormatters(first + rest, value) == ApplyOneOfFormatters(first, value)
    ensures (forall i | 0 <= i < |first| :: !first[i].0(value)) ==>
      ApplyOneOfFormatters(first + rest, value) == ApplyOneOfFormatters(rest, value)
  {
    FirstMatchAppend(first, rest, value);
    var k := FirstMatch(first, value);
    if k < |first| {
      assert (first + rest)[k] == first[k];
    } else {
      var m := FirstMatch(rest, value);
      if m < |rest| {
        assert (first + rest)[k + m] == rest[m];
      }
    }
  }

  /** `apply_formatter_if` is `apply_one_of_formatters` with one conditional pair and a
      fallback pair that always matches and changes nothing. */
  lemma FormatterIfIsOneOf<T, O>(condition: Condition<T>, formatter: Formatter<T, T, Error<O>>, value: T)
    ensures ApplyFormatterIf(condition, formatter, value)
         == ApplyOneOfFormatters([(condition, formatter), (_ => true, Unchanged)], value)
  {
    var pairs: seq<(Condition<T>, Formatter<T, T, Error<O>>)> := [(condition, formatter), (_ => true, Unchanged)];
    assert pairs[1..] == [(_ => true, Unchanged)];
    assert pairs[1..][1..] == [];
    assert FirstMatch(pairs, value) == if condition(value) then 0 else 1;
  }

  /** A conditional formatter whose results no longer satisfy the condition is idempotent. */
  lemma FormatterIfIdempotent<T, E>(condition: Condition<T>, formatter: Formatter<T, T, E>, value: T)
    requires forall x :: formatter(x).Ok? ==> !condition(formatter(x).value)
    ensures var once := ApplyFormatterIf(condition, formatter, value);
      once.Ok? ==> ApplyFormatterIf(condition, formatter, once.value) == once
  {
  }

  /** Renaming keys with `keyMappings` and then with a mapping that undoes it restores the
      input, as long as no key that is kept gets renamed on the way back. */
  lemma KeyMapRoundTrip<K, V>(keyMappings: map<K, K>, inverse: map<K, K>, value: seq<(K, V)>)
    requires forall i | 0 <= i < |value| && value[i].0 in keyMappings ::
      keyMappings[value[i].0] in inverse && inverse[keyMappings[value[i].0]] == value[i].0
    requires forall i | 0 <= i < |value| && value[i].0 !in keyMappings :: value[i].0 !in inverse
    ensures ApplyKeyMap(inverse, ApplyKeyMap(keyMappings, value)) == value
  {
  }

  /** No mapping for any key of `value` (in particular, an empty mapping) leaves it as is. */
  lemma KeyMapOfIdentityIsIdentity<K, V>(keyMappings: map<K, K>, value: seq<(K, V)>)
    requires forall k | k in keyMappings :: keyMappings[k] == k
    ensures ApplyKeyMap(keyMappings, value) == value
  {
  }

  /** Renaming cannot create a duplicate key when the renaming is injective and no renamed key
      lands on a key that is kept. */
  lemma KeyMapKeepsKeysDistinct<K, V>(keyMappings: map<K, K>, value: seq<(K, V)>)
    requires DistinctKeys(value)
    requires Injective(keyMappings)
    requires forall i | 0 <= i < |value| && value[i].0 !in keyMappings :: value[i].0 !in keyMappings.Values
    ensures DistinctKeys(ApplyKeyMap(keyMappings, value))
  {
  }
}
