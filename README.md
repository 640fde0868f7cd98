# Narabikae position engine, in Dafny

Narabikae orders sibling ActiveRecord rows by sortable string keys
(fractional indexing). This project models its position-assignment engine
and the code around it:

- `Narabikae::Position` (module `Engine`). It asks the fractional-indexing
  generator for a key after, before or between bounds. When the key is not
  valid in the record's partition, it retries by appending random non-zero
  digits, up to `challenge` times. It returns nil on exhaustion or when the
  generator raises.
- `Narabikae::ActiveRecordExtension` (module `Extension`). This holds the
  auto-reposition rule, the default insertion end, and the `move_to_*`
  commands.
- The hooks and the `relative_<field>=` setter installed by `narabikae`
  (module `Narabikae`).
- `Narabikae::Option` (module `Options`), an immutable normalised
  configuration value.

Supporting modules:

- `Base` holds Option/Outcome and the exceptions that can escape.
- `Strings` holds Ruby's String order and `blank?`.
- `Store` models the table as a sequence of rows. It also has scoped
  MIN/MAX and the class `Entity`, an in-memory record with dirty tracking.

External pieces are inputs:

- The generator `FractionalIndexer.generate_key` is a function-valued field
  of `Engine.Indexer`. `None` stands for "raised `FractionalIndexer::Error`".
- The ordering contract the generator is relied on for is the ghost
  predicate `Engine.Respects`. It is a hypothesis of the lemmas that need it,
  never assumed.
- `random_fractional` is an oracle sequence `draws`, one character per
  retry, each from the digit alphabet without its first digit
  (`Engine.Drawn`).
- Whether `save` succeeds is a boolean input.

The engine methods (`FindPositionAfter`, `FindPositionBefore`,
`FindPositionBetween`) run the source's retry loop (`Engine.Retry`). Each is
proved equal to a specification function (`PositionAfter`, …). Lemmas state
what those functions guarantee.

Points where the code behaves in a way that is easy to miss:

- `auto_set_position?` probes the current key with
  `generate_key(prev_key: key)`. A nil key is no bound, so the probe
  succeeds. A record whose key is nil is therefore not repositioned on
  update unless a scope field changed.
- Only a key the generator rejects forces repositioning.
- `find_position_between` with two present targets, one with a nil key,
  raises ArgumentError from `minmax`. It is not reported as nil.
- With two nil keys, `minmax` returns `[nil, nil]` and the generator is
  called without bounds.
- Retrying can carry a key past the upper bound when the generated key is a
  proper prefix of that bound. The before/between lemmas state exactly this
  exception; "## Findings" gives an input.
- The keywords `"first"` and `"last"` of `relative_<field>=` call
  `create_first_position` / `create_last_position` on the
  ActiveRecordExtension, which defines neither. They raise NoMethodError
  before anything is assigned, and the model says so (`Narabikae.Run`).
- The helpers of `relative_<field>=` are defined inside `class_methods`, so
  Ruby resolves them on the model class, not on the instance the setter runs
  on. The setter model follows the evident intent (the helpers called on the
  record); the code as written is `Narabikae.RelativeEffectAsWritten`.

## Model

| member | source | states |
|---|---|---|
| `Options.NewOption` | lib/narabikae/option.rb:11-16 | `field` and `insert_at` become symbols of their inputs. `key_max_size` is `to_i` of its input. A non-Array scope becomes `[]`. An Array scope keeps its length and order, elements as symbols. Defaults are scope `[]` and insert_at `:last`. |
| `Options.SizeRoundTrip` | lib/narabikae/option.rb:13 | The `to_i` conversion of `key_max_size` reads back every integer written with `Integer#to_s`, negative ones included. |
| `Options.RadixPrefixIgnored` | lib/narabikae/option.rb:13 | `to_i` skips a `0d`/`0D` radix prefix after the sign: `"0d12"` and `"12"` read the same, and `"-0d12"` reads as its negation. |
| `Store.Partition` | lib/narabikae/position.rb:144-146 | A row is in the record's partition iff it is in the table and agrees with the record on every scope field. |
| `Store.MaxKey` | lib/narabikae/position.rb:127-129 | The partition maximum is nil iff no key is present. Otherwise it is a present key that no other key exceeds. |
| `Store.MinKey` | lib/narabikae/position.rb:123-125 | The partition minimum is nil iff no key is present. Otherwise it is a present key below every other. |
| `Engine.ValidIff` | lib/narabikae/position.rb:152-156 | `valid?(k)` holds iff `k` is non-blank, `|k| <= key_max_size`, and no row with the record's scope values holds `k`. |
| `Engine.ValidIgnoresOtherPartitions` | lib/narabikae/position.rb:148-150 | Adding rows of other partitions never changes validity. |
| `Engine.CapableIsPrefixClosed` | lib/narabikae/position.rb:119-121 | A key too long for `key_max_size` stays too long however it is extended. |
| `Engine.Uniq` | lib/narabikae/position.rb:148-150 | `uniq?(k)` holds iff no key of the partition equals `k`. |
| `Engine.Valid` | lib/narabikae/position.rb:152-156 | `valid?(k)` holds iff `k` is not blank, fits `key_max_size`, and is not a partition key. A valid key is never empty. |
| `Engine.CreateLastPosition` | lib/narabikae/position.rb:15-17 | The key is exactly what the generator returns above the partition max, with no validity check. It raises GeneratorError iff the generator does. |
| `Engine.CreateFirstPosition` | lib/narabikae/position.rb:22-24 | The key is exactly what the generator returns below the partition min, with no validity check. It raises GeneratorError iff the generator does. |
| `Engine.Retries` | lib/narabikae/position.rb:36-43 | An omitted `challenge:` gives 10 tries. A positive count gives that many. nil, zero or a negative count gives none. |
| `Engine.CreateLastIsLast` | lib/narabikae/position.rb:15-17 | Under the generator contract, the created last key is above every key of the partition, so no row holds it. It raises exactly when the generator does. |
| `Engine.CreateFirstIsFirst` | lib/narabikae/position.rb:22-24 | Under the generator contract, the created first key is below every key of the partition, so no row holds it. It raises exactly when the generator does. |
| `Engine.Search` | lib/narabikae/position.rb:41-48 | The result is the first valid candidate `key + draws[..j]`, `j` from `i` to `n`. It is nil iff no candidate is valid. |
| `Engine.PlaceResult` | lib/narabikae/position.rb:38-50 | A generator error gives nil. A result is valid, has the generated key as prefix, and extends it by at most `Retries(challenge)` draws. It is nil iff all those candidates are invalid. |
| `Engine.TooLongIsNeverPlaced` | lib/narabikae/position.rb:43-46 | A generated key longer than `key_max_size` yields nil, because every retry is longer still. |
| `Engine.PlacedWithinBounds` | lib/narabikae/position.rb:38-46 | Under the generator contract, a placed key is above the lower bound. It is below the upper bound unless the generated key is a prefix of it. |
| `Engine.AfterIsAbove` | lib/narabikae/position.rb:35-40 | A key found after a target is above the target's key. After no target, or one without a key, it is above every key of the partition: the partition maximum is the bound. |
| `Engine.BeforeIsBelow` | lib/narabikae/position.rb:67-72 | A present target key is the bound; otherwise the partition minimum is, and it is nil only for an empty partition. A key found before is below that bound unless the generated key is a prefix of it. With no target key, it is below every partition key, with the same exception. |
| `Engine.MinMax` | lib/narabikae/position.rb:98 | `minmax` raises ArgumentError iff exactly one key is nil. Two nils give `[nil, nil]`. For two keys it returns the same two, smaller first. |
| `Engine.BetweenIsSymmetric` | lib/narabikae/position.rb:92-102 | With both targets present, swapping them gives the same result. |
| `Engine.BetweenIsBetween` | lib/narabikae/position.rb:98-103 | The key found between two keyed targets is above the smaller key. It is below the larger one unless the generated key is a prefix of it. |
| `Engine.SearchBelow` | lib/narabikae/position.rb:73-78 | The corrected retry loop. It returns the first candidate that is valid and below the upper bound, and nil iff there is none. |
| `Engine.PlaceBelowWithinBounds` | lib/narabikae/position.rb:70-78 | Under the generator contract, a key placed by the corrected loop is valid and strictly between both bounds. |
| `Engine.PlaceBelowAgreesOffPrefix` | lib/narabikae/position.rb:70-78 | The corrected loop gives the same result as the code's loop unless the generated key is a prefix of the upper bound. |
| `Engine.Retry` | lib/narabikae/position.rb:43-46 | The loop returns exactly the first valid candidate, or nil (`Search`). |
| `Engine.FindPositionAfter` | lib/narabikae/position.rb:35-51 | It equals `PositionAfter` (bound: target key, else partition max). The result is nil or valid. |
| `Engine.FindPositionBefore` | lib/narabikae/position.rb:67-83 | It equals `PositionBefore` (bound: target key, else partition min). The result is nil or valid. |
| `Engine.FindPositionBetween` | lib/narabikae/position.rb:92-113 | It equals `PositionBetween`. A blank prev delegates to before(next) and a blank next to after(prev). Otherwise the bounds are the `minmax` of the two keys. The result is nil or valid. |
| `Extension.AnyScopeChange` | lib/narabikae/active_record_extension.rb:14 | `scope.any?` is true iff some scope attribute will save a change. |
| `Extension.AutoSetPosition` | lib/narabikae/active_record_extension.rb:10-17 | A key the generator rejects forces true. Otherwise the result is true iff some scope field changes and the key field does not. An empty scope with an accepted key gives false. |
| `Extension.InsertKeyAtEnd` | lib/narabikae/active_record_extension.rb:20 | `:last` gives a key above every key of the partition, and any other `insert_at` a key below them all. No row holds it. |
| `Extension.InsertKey` | lib/narabikae/active_record_extension.rb:20 | Only `insert_at == :last` selects the last end. Every other value selects the first end. Only a generator error escapes. |
| `Extension.SetPosition` | lib/narabikae/active_record_extension.rb:19-21 | It assigns the last-position key when `insert_at == :last` and the first-position key otherwise. On a generator error it leaves the field alone. |
| `Extension.CalculatePositionAfter` | lib/narabikae/active_record_extension.rb:23-25 | It returns exactly what `find_position_after` returns. |
| `Extension.CalculatePositionBefore` | lib/narabikae/active_record_extension.rb:27-29 | It returns exactly what `find_position_before` returns. |
| `Extension.CalculatePositionBetween` | lib/narabikae/active_record_extension.rb:31-33 | It returns exactly what `find_position_between` returns. |
| `Extension.AssignAndSave` | lib/narabikae/active_record_extension.rb:37-40 | A blank result returns false and leaves the record unassigned and unsaved. Otherwise it assigns exactly that key and returns `save`'s result. |
| `Extension.MoveToAfter` | lib/narabikae/active_record_extension.rb:35-41 | When the engine finds nothing: false, record untouched. Otherwise: the found key assigned, `save`'s result returned. |
| `Extension.MoveToBefore` | lib/narabikae/active_record_extension.rb:43-49 | The same, for `find_position_before`. |
| `Extension.MoveToBetween` | lib/narabikae/active_record_extension.rb:51-57 | The same, for `find_position_between`. Its ArgumentError propagates with the record untouched. |
| `Narabikae.FindTarget` | lib/narabikae.rb:116-118 | A found target is a row of the table with that id and the record's scope values. RecordNotFound means no such in-scope row exists. |
| `Narabikae.Interpret` | lib/narabikae.rb:48-58 | A blank value changes nothing. A non-blank value that decodes to an object is exactly `RelativeCommand` of its entries. A non-JSON `"first"`/`"last"` (and only that) selects create-first/last. Any other non-JSON string does nothing. After/before/between targets are rows of the record's own partition. |
| `Narabikae.FirstEntryDecides` | lib/narabikae.rb:94 | Only the first entry of a payload object decides the command. |
| `Narabikae.RelativeCommand` | lib/narabikae.rb:93-105 | An empty object raises NoMethodError. For `:after`/`:before`, an integer id succeeds iff an in-scope row has it, and the command names such a row; `null` raises RecordNotFound and an array NoMethodError. Any other name gives `between`: array slots that are absent or `null` give nil targets without a lookup, and the others name in-scope rows with those ids (all resolvable slots: success). A single integer's bits 0 and 1 are the two ids. |
| `Narabikae.KeywordCommand` | lib/narabikae.rb:107-114 | `"first"` and `"last"` (and only they) select create-first/last. Every other string selects nothing. |
| `Narabikae.Run` | lib/narabikae.rb:99-112 | After/before assign exactly `find_position_after`/`_before` of the target, nil included. Between assigns exactly `find_position_between`, or lets its ArgumentError escape. Create-first/last raises NoMethodError, since the extension has no such method. An assigned key is valid. |
| `Narabikae.FoundIsTarget` | lib/narabikae.rb:116-118 | With unique ids, `find` of an in-scope row's id returns that row. |
| `Narabikae.AfterPayloadLandsAbove` | lib/narabikae.rb:53-54 | `{after: id}` naming an in-scope row assigns exactly `find_position_after` of that row. Under the generator contract, a key found lies above the row's key. |
| `Narabikae.BeforePayloadLandsBelow` | lib/narabikae.rb:53-54 | `{before: id}` naming an in-scope row assigns exactly `find_position_before` of that row. Under the generator contract, a key found lies below the row's key unless the generated key is a prefix of it. |
| `Narabikae.KeywordRaises` | lib/narabikae.rb:107-114 | A non-JSON `"first"`/`"last"` raises NoMethodError, where the intended effect never does. |
| `Narabikae.IntendedKeywordAtEnd` | lib/narabikae.rb:107-114 | The corrected keyword effect assigns a key below every partition key for `"first"` and above every one for `"last"`, held by no row. It fails only with GeneratorError. |
| `Narabikae.RelativeEffectAsWritten` | lib/narabikae.rb:48-58 | As Ruby resolves the helper calls, a blank value does nothing and every other value raises NoMethodError. |
| `Narabikae.AsWrittenRefusesEveryAssignment` | lib/narabikae.rb:53 | Every value the intended setter would assign from raises NoMethodError as written. |
| `Narabikae.RelativeEffectResult` | lib/narabikae.rb:48-114 | A blank value assigns nothing. A non-JSON `"first"`/`"last"` raises NoMethodError, and any other non-JSON value does nothing. Only a payload assigns, and what it assigns is a valid key or nil. |
| `Narabikae.UpdateFieldPosition` | lib/narabikae.rb:120-123 | It marks the field changed and assigns the value unconditionally, nil included. |
| `Narabikae.SetRelativePosition` | lib/narabikae.rb:48-58 | The field becomes exactly the engine result of the one command decoded, even nil, and is marked changed. On blank, no-op or raise (the keywords included) nothing changes. It never saves. |
| `Narabikae.BeforeCreate` | lib/narabikae.rb:38-41 | On create the position is always set at the `insert_at` end. |
| `Narabikae.BeforeUpdate` | lib/narabikae.rb:43-46 | On update the position is set iff `auto_set_position?` held, at the `insert_at` end. Otherwise the record is untouched. |
| `Findings.BeforeCanLandAfterTarget` | lib/narabikae/position.rb:67-78 | Table "a1", "a1V", before "a1V", `challenge: 1`, draw `'z'`: the code returns "a1z", above the target. The corrected loop returns nil. |
| `Findings.PayloadRefusedAsWritten` | lib/narabikae.rb:48-58 | `'{"after":1}'` places the record at "a2" in the intended setter, but raises NoMethodError as written. |

## Findings

| source | as written | input that shows it | evidently intended | confidence | as-written member | corrected member |
|---|---|---|---|---|---|---|
| lib/narabikae.rb:31-123 | The setter's helpers are private class methods (defined in `class_methods`), called from an instance method | `relative_position = '{"after":1}'` on record 2 of `Findings.PayloadRefusedAsWritten` | The helpers run on the record, which is placed after row 1 | not executed; high | `Narabikae.AsWrittenRefusesEveryAssignment` | `Narabikae.RelativeEffectResult` |
| lib/narabikae.rb:107-114 | `"first"`/`"last"` call `create_*_position` on ActiveRecordExtension, which has no such method | `relative_position = "first"` | Assign the Position's create-first/last key | not executed; high | `Narabikae.KeywordRaises` | `Narabikae.IntendedKeywordAtEnd` |
| lib/narabikae/position.rb:73-78 | A retry appends a digit without checking the upper bound | before "a1V", "a1" taken, `challenge: 1`, draw `'z'` gives "a1z" | The key stays below the target | not executed; medium | `Findings.BeforeCanLandAfterTarget` | `Engine.PlaceBelowWithinBounds` |

The setter model (`Narabikae.SetRelativePosition`) uses the corrected helper
resolution of the first row. The engine and the keyword path keep the code's
behaviour, which the rest of the model states. The corrected definitions
(`IntendedKeywordEffect`, `PlaceBelow`) stand beside them.

## Left out

- The FractionalIndexer midpoint algorithm and its base-62 encoding are not
  part of this model. The generator is an input, and its ordering contract
  (`Respects`) is a hypothesis.
- `random_fractional` randomness is an oracle sequence of drawn characters.
  With an alphabet of one digit, Ruby raises TypeError at the first retry.
  The model requires draws from `digits[1..]`, so it excludes that
  configuration.
- ActiveRecord queries and persistence are reduced to a sequence of rows:
  `base_class`, `where`/`merge`/`minimum`/`maximum`/`find`, `save`.
  - The store compares strings bytewise; database collations are not
    modelled.
  - `save` is a boolean input. Its effect on dirty tracking is modelled.
    Its write to the table and the hooks it runs are not.
- Dirty tracking keeps the current and the persisted values plus the set of
  attributes forced by `*_will_change!`. Type casting on assignment is not
  modelled.
- `JSON.parse` is replaced by its decoded result.
  - A JSON object of entries whose values are an id (`null` or an integer)
    or an array of such ids, or a falsy/unparseable result.
  - Top-level arrays, strings and numbers are not represented.
  - String ids and nested arrays are not represented either.
  - An `after`/`before` entry whose value is an array is modelled as
    NoMethodError. The model does not distinguish the RecordNotFound that
    `find` would raise first for a missing id in it.
- `Narabikae.SetRelativePosition` calls the setter's helpers on the record,
  as they evidently should be. As written they are class methods, and every
  non-blank value raises NoMethodError (see "## Findings").
- `define_method`, `ActiveSupport::Concern`, `on_load` and hook
  registration become explicit calls.
  - `set_initial_<field>` is `Extension.SetPosition`.
  - `move_to_<field>_*` are `Extension.MoveTo*`.
- `Configuration`, `OptionStore` and the `narabikae` registration
  (`register!`, default field `:position`) are not part of this model.
- The check-then-act race between concurrent placements is out of scope:
  every call sees one fixed table.
- `Options.NewOption` reads `key_max_size.to_i` for Integer, String and nil
  inputs only. Floats and other objects are not modelled.
- `String#to_i` is modelled for base 10 only: whitespace, sign, the `0d`
  prefix, digits and single underscores.
- The `[[:space:]]` class of `blank?` is written out as the code points
  Onigmo matches.
