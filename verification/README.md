# Formatter combinators of eth-utils, in Dafny

This project models `eth_utils/applicators.py`. That module is a small library of higher-order
"formatter" combinators. A formatter is any callable that turns one value into another, or
raises. Each combinator applies formatters to a structured value:

- `apply_formatter_at_index` applies one formatter at a given position of a sequence.
- `apply_formatters_to_sequence` applies a list of formatters position by position.
- `apply_formatter_to_array` applies one formatter to every element.
- `apply_formatter_if` applies a formatter when a condition holds.
- `apply_one_of_formatters` applies the formatter of the first (condition, formatter) pair that matches.
- `apply_formatters_to_dict` applies formatters to the items of a mapping, by key. A TypeError or ValueError is raised again with the field and item attached.
- `apply_key_map` renames the keys of a mapping.

## Layout

- `exceptions.dfy` (module `Exceptions`): the exception classes the combinators tell apart (`ExcType`). It also holds the exceptions themselves as structured data (`Error`), and the `Result` of a call that may raise.
- `rebuild.dfy` (module `Rebuild`): `Gather` drains a generator of formatted elements into a container. The first step that raises wins. This is the part of the `return_arg_type` and `to_dict` decorators the combinators rely on.
- `dicts.dfy` (module `Dicts`): Python dictionaries as lists of (key, item) pairs in iteration order.
- `applicators.dfy` (module `Applicators`): the seven combinators.
- `applicator_laws.dfy` (module `ApplicatorLaws`): lemmas relating the combinators to each other and to reference definitions. They cover sequence update, `apply_one_of_formatters` as the general form of `apply_formatter_if`, identity round trips, the inverse of a key renaming, and splitting over concatenation.

Modelling choices:

- A formatter is a total Dafny function `T -> Result<U, Error<O>>`. A condition is a `T -> bool`.
- A sequence is a `seq`.
- A mapping that is iterated is a `seq<(K, V)>` in iteration order. A mapping that is only looked up (`formatters`, `key_mappings`) is a Dafny `map`.
- Each exception the library raises is a constructor of `Error` with structured fields in place of the message text:
  - `NotEnoughValues(got, need)`
  - `TooManyFormatters(formatters, items)` and `TooFewFormatters(formatters, items)`
  - `NoConditionSatisfied`
  - `FieldNotFormatted(class, item, field, cause)`
- `at_index` is an unbounded integer, as in Python. The code checks only `at_index + 1 > len(value)`. A negative index therefore raises nothing and formats nothing: the result equals the input. The model follows the code here.
- In `apply_formatters_to_dict`, keys and items share one object type `O`. This is what lets the re-raised exception carry both of them.

## Model

| member | source | states |
|---|---|---|
| Rebuild.Gather | eth_utils/applicators.py:84-86 | draining a generator of steps succeeds exactly when every step succeeds, and then holds every yielded value in order; otherwise it raises the error of the first failing step, and every earlier value is discarded (the rule the generators at lines 23-27, 60-61, 73-80, 85-86 and 99-103 rely on) |
| Rebuild.GatherAppend | eth_utils/applicators.py:84-86 | draining two step lists one after the other equals draining their concatenation: the first part's error wins, otherwise the second part's, otherwise the two value lists are concatenated |
| Applicators.ApplyFormatterAtIndex | eth_utils/applicators.py:16-27 | raises IndexError(got = len, need = at_index + 1) exactly when at_index + 1 > len; for an index in range the result is the input updated at that position with the formatter's value, and it fails exactly when the formatter fails there, with its error; a negative index returns the input unchanged |
| Applicators.ApplyFormattersToSequence | eth_utils/applicators.py:47-61 | more formatters than items raises "too many" and fewer raises "too few", each carrying the formatter count and the item count; with equal lengths the result is the same length, element i is formatter i applied to item i, and a failure is the first formatter error in position order |
| Applicators.ApplyFormatterIf | eth_utils/applicators.py:64-68 | the formatter's outcome when the condition holds, otherwise the value itself |
| Applicators.Retag | eth_utils/applicators.py:77-78 | the escaping exception has the class of the one raised; a TypeError or ValueError becomes a new exception naming the item and field, chained to the original; any other class passes through as is |
| Applicators.FormatEntry | eth_utils/applicators.py:73-80 | a key with a formatter yields the same key with the formatted item, or the re-tagged error; a key without one yields the pair unchanged |
| Applicators.ApplyFormattersToDict | eth_utils/applicators.py:71-80 | succeeds exactly when every formatter applicable to an entry succeeds; then the keys are those of the input in the same order, formatted items for keys with a formatter and unchanged items otherwise; a failure is the re-tagged error of the first failing entry in iteration order |
| Applicators.ApplyFormatterToArray | eth_utils/applicators.py:83-86 | empty input gives empty output; succeeds exactly when the formatter succeeds on every item; then same length and element i is the formatted item i; a failure is the first item's error |
| Applicators.ApplyOneOfFormatters | eth_utils/applicators.py:89-94 | raises the no-match ValueError when no condition holds (including for no pairs); otherwise the formatter of the least index whose condition holds is applied |
| Applicators.FirstMatch | eth_utils/applicators.py:90-91 | the loop over the conditions stops at the least position whose condition holds, or runs past the end when none holds |
| Applicators.ApplyKeyMap | eth_utils/applicators.py:97-103 | one pair per input pair, in order, items unchanged; a key with a mapping is replaced by its target, any other key is kept |
| ApplicatorLaws.AtIndexIsSequenceOfUnchanged | eth_utils/applicators.py:23-27 | formatting one position equals formatting all positions with that formatter at the index and unchanged-formatters elsewhere |
| ApplicatorLaws.SequenceOfCopiesIsArray | eth_utils/applicators.py:59-61 | a list of copies of one formatter applied position by position equals applying it to every element |
| ApplicatorLaws.ArrayAppend | eth_utils/applicators.py:84-86 | formatting a concatenation formats the first part, then the second, and concatenates; a failure in the first part wins |
| ApplicatorLaws.ArrayOfUnchangedIsIdentity | eth_utils/applicators.py:84-86 | a formatter that returns its argument gives back the input |
| ApplicatorLaws.SequenceOfUnchangedIsIdentity | eth_utils/applicators.py:59-61 | formatters that return their argument give back the input sequence |
| ApplicatorLaws.AtIndexOfUnchangedIsIdentity | eth_utils/applicators.py:18-27 | a formatter that returns its argument, at any index below the length, gives back the input |
| ApplicatorLaws.DictOfUnchangedIsIdentity | eth_utils/applicators.py:73-80 | formatters that return their argument give back the input mapping, whichever keys they are registered for |
| ApplicatorLaws.DictDependsOnlyOnUsedFormatters | eth_utils/applicators.py:73-74 | two formatter mappings that agree on the keys the mapping has give the same outcome, so formatters for absent keys have no effect |
| ApplicatorLaws.FirstMatchAppend | eth_utils/applicators.py:90-91 | searching a concatenation finds a match in the first part if it has one, and otherwise continues into the second part |
| ApplicatorLaws.OneOfAppend | eth_utils/applicators.py:90-94 | pairs after a matching pair are never reached; pairs none of which match are skipped |
| ApplicatorLaws.FormatterIfIsOneOf | eth_utils/applicators.py:64-68 | the conditional formatter equals choosing between (condition, formatter) and an always-true pair that changes nothing |
| ApplicatorLaws.FormatterIfIdempotent | eth_utils/applicators.py:64-68 | when formatted values no longer satisfy the condition, applying the conditional formatter twice equals applying it once |
| ApplicatorLaws.KeyMapRoundTrip | eth_utils/applicators.py:98-103 | renaming with a mapping and then with its inverse restores the input pairs, provided no kept key is renamed on the way back |
| ApplicatorLaws.KeyMapOfIdentityIsIdentity | eth_utils/applicators.py:98-103 | a mapping that sends each of its keys to itself, in particular the empty mapping, leaves the pairs unchanged |
| ApplicatorLaws.KeyMapKeepsKeysDistinct | eth_utils/applicators.py:97-103 | an injective renaming that sends no key onto a kept key keeps the keys distinct, so the rebuilt dictionary loses no entry |

## Left out

- `combine_argument_formatters` (eth_utils/applicators.py:30-44) is deprecated. It emits a warning and is built from cytoolz `curry` and `compose`, which are not part of this model.
- `return_arg_type` and `to_dict` are not part of this model. Results are plain sequences and pair lists. The concrete container type (tuple, list, dict class) is assumed to be kept.
- Applicators.ApplyKeyMap: does not state which entry survives when two keys are renamed to the same key. The rebuilt dictionary would collapse them, and how it does so depends on `to_dict`, which is not part of this model. `KeyMapKeepsKeysDistinct` only states when no collision can happen.
- Exception message text, including `repr` of the sequence, item and field, is not modelled.
- Applicators.ApplyFormattersToSequence: the "too many" and "too few" messages show the formatter count and the sequence itself; `TooManyFormatters` and `TooFewFormatters` keep only the formatter count and the sequence's length, because `Error` is not parameterised by the element type of the sequence.
- Generator laziness and the number of times a formatter is called are not modelled. Formatters are pure functions here, so only the outcome of the first failing element, in iteration order, is observable.
- The `from exc` chain is modelled only as the `cause` field of the re-raised exception. Traceback contents are left out.
- Conditions are total predicates. A condition that raises is not modelled.
- Exception classes are flat. Python's `except (TypeError, ValueError)` also catches their subclasses, and `type(exc)` keeps the subclass. The model keeps only the four classes of `ExcType`.
