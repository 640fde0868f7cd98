/**
 * What `narabikae(field, size:, scope:, insert_at:)` installs on a model:
 * the `before_create` / `before_update` hooks and the `relative_<field>=`
 * setter, which turns a keyword or a decoded JSON payload into exactly one
 * engine call and assigns its result.
 */
module Narabikae {
  import opened Base
  import opened Strings
  import opened Options
  import opened Store
  import opened Engine
  import opened Extension

  // ---- the decoded payload -------------------------------------------------

  /** A target id in a payload: JSON `null` or an integer. */
  datatype IdValue = NullId | IntId(n: int)

  /** The value of a payload entry: one id, or an array of ids. */
  datatype Target = Single(id: IdValue) | Ids(ids: seq<IdValue>)

  /**
   * The outcome of `parse_relative_position`: a JSON object (its entries in
   * order, names symbolised), or a falsy result (a parse error, `null`, `false`).
   */
  datatype Parsed = Unparsed | Object(entries: seq<(string, Target)>)

  /** The single engine call a placement request resolves to. */
  datatype Command =
    | NoCommand
    | CreateFirst
    | CreateLast
    | After(target: Option<Row>)
    | Before(target: Option<Row>)
    | Between(prev: Option<Row>, next: Option<Row>)

  // ---- resolving targets -----------------------------------------------------

  /** `self.class.where(slice(*option.scope)).find(id)` */
  function FindTarget(store: seq<Row>, self: Row, scope: seq<Sym>, id: int): (r: Outcome<Row>)
    ensures r.Ok? ==> r.value in store && r.value.id == id && SameScope(r.value, self, scope)
    ensures r.Raise? ==>
      r.error == RecordNotFound(Some(id)) &&
      forall t :: t in store && t.id == id ==> !SameScope(t, self, scope)
  {
    if store == [] then Raise(RecordNotFound(Some(id)))
    else if store[0].id == id && SameScope(store[0], self, scope) then Ok(store[0])
    else
      var r := FindTarget(store[1..], self, scope, id);
      assert forall t :: t in store ==> t == store[0] || t in store[1..];
      r
  }

  /** `find` given one payload id: `find(nil)` raises RecordNotFound too. */
  function FindById(store: seq<Row>, self: Row, scope: seq<Sym>, id: IdValue): Outcome<Row>
  {
    match id
    case NullId => Raise(RecordNotFound(None))
    case IntId(n) => FindTarget(store, self, scope, n)
  }

  /** `target_id[i] ? find_target(target_id[i], option) : nil` for an array payload. */
  function PairTarget(store: seq<Row>, self: Row, scope: seq<Sym>, ids: seq<IdValue>, i: nat): Outcome<Option<Row>>
  {
    if i >= |ids| || ids[i].NullId? then Ok(None)
    else match FindTarget(store, self, scope, ids[i].n)
      case Raise(e) => Raise(e)
      case Ok(t) => Ok(Some(t))
  }

  function Pow2(i: nat): (p: nat)
    ensures p >= 1
  {
    if i == 0 then 1 else 2 * Pow2(i - 1)
  }

  /** Ruby `Integer#[]`: bit `i` of the two's-complement representation of `n`. */
  function Bit(n: int, i: nat): int
  {
    (n / Pow2(i)) % 2
  }

  /**
   * Every id of an array payload's first two slots can be looked up: the
   * slot is absent or `null` (no lookup), or an in-scope row has that id.
   */
  predicate Resolvable(store: seq<Row>, self: Row, scope: seq<Sym>, ids: seq<IdValue>, i: nat)
  {
    i >= |ids| || ids[i].NullId? || exists t :: t in store && t.id == ids[i].n && SameScope(t, self, scope)
  }

  /** `update_position_by_relative` up to the engine call, for `relative_position.first`. */
  function RelativeCommand(entries: seq<(string, Target)>, store: seq<Row>, self: Row, scope: seq<Sym>): (r: Outcome<Command>)
    ensures entries == [] ==> r == Raise(NoMethodError)
    ensures r.Raise? ==> r.error == NoMethodError || r.error.RecordNotFound?
    ensures r.Ok? ==> r.value.After? || r.value.Before? || r.value.Between?
    ensures r.Ok? ==> (r.value.After? <==> entries[0].0 == "after") && (r.value.Before? <==> entries[0].0 == "before")
    ensures r.Ok? && (r.value.After? || r.value.Before?) ==>
      r.value.target.Some? && entries[0].1 == Single(IntId(r.value.target.value.id)) &&
      r.value.target.value in store && SameScope(r.value.target.value, self, scope)
    ensures r.Ok? && r.value.Between? ==>
      (r.value.prev.Some? ==> r.value.prev.value in store && SameScope(r.value.prev.value, self, scope)) &&
      (r.value.next.Some? ==> r.value.next.value in store && SameScope(r.value.next.value, self, scope))
    // `after` / `before`: an in-scope row with the id is found; an array cannot be looked up
    ensures entries != [] && (entries[0].0 == "after" || entries[0].0 == "before") ==>
      (entries[0].1.Ids? ==> r == Raise(NoMethodError)) &&
      (entries[0].1 == Single(NullId) ==> r == Raise(RecordNotFound(None))) &&
      (entries[0].1.Single? && entries[0].1.id.IntId? ==>
         (r.Ok? <==> exists t :: t in store && t.id == entries[0].1.id.n && SameScope(t, self, scope)))
    // any other name: the two slots of an array are looked up unless absent or `null`
    ensures entries != [] && entries[0].0 != "after" && entries[0].0 != "before" && entries[0].1.Ids? ==>
      var ids := entries[0].1.ids;
      (Resolvable(store, self, scope, ids, 0) && Resolvable(store, self, scope, ids, 1) ==> r.Ok?) &&
      (r.Ok? ==>
         (r.value.prev.None? <==> 0 >= |ids| || ids[0].NullId?) &&
         (r.value.next.None? <==> 1 >= |ids| || ids[1].NullId?) &&
         (r.value.prev.Some? ==> r.value.prev.value.id == ids[0].n) &&
         (r.value.next.Some? ==> r.value.next.value.id == ids[1].n))
    // any other name with one integer: its bits 0 and 1 are the two ids
    ensures entries != [] && entries[0].0 != "after" && entries[0].0 != "before" &&
            entries[0].1.Single? && entries[0].1.id.IntId? && r.Ok? ==>
      r.value.prev.Some? && r.value.next.Some? &&
      r.value.prev.value.id == Bit(entries[0].1.id.n, 0) && r.value.next.value.id == Bit(entries[0].1.id.n, 1)
  {
    if entries == [] then Raise(NoMethodError)        // `nil[0]`
    else
      var placement := entries[0].0;
      var target := entries[0].1;
      if placement == "after" || placement == "before" then
        if target.Ids? then Raise(NoMethodError)        // an Array has no key field
        else match FindById(store, self, scope, target.id)
          case Raise(e) => Raise(e)
          case Ok(t) => Ok(if placement == "after" then After(Some(t)) else Before(Some(t)))
      else
        match target
        case Single(NullId) => Raise(NoMethodError)     // `nil[0]`
        case Single(IntId(n)) =>                        // `n[0]`, `n[1]` are bits, both truthy
          (match FindTarget(store, self, scope, Bit(n, 0))
           case Raise(e) => Raise(e)
           case Ok(p) =>
             match FindTarget(store, self, scope, Bit(n, 1))
             case Raise(e) => Raise(e)
             case Ok(q) => Ok(Between(Some(p), Some(q))))
        case Ids(ids) =>
          match PairTarget(store, self, scope, ids, 0)
          case Raise(e) => Raise(e)
          case Ok(p) =>
            match PairTarget(store, self, scope, ids, 1)
            case Raise(e) => Raise(e)
            case Ok(q) => Ok(Between(p, q))
  }

  /** `update_position_by_keyword` up to the engine call. */
  function KeywordCommand(value: string): (c: Command)
    ensures c == CreateFirst <==> value == "first"
    ensures c == CreateLast <==> value == "last"
    ensures c.NoCommand? <==> value != "first" && value != "last"
  {
    if value == "first" then CreateFirst
    else if value == "last" then CreateLast
    else NoCommand
  }

  /** A blank value: nil, or a string of whitespace. */
  predicate BlankValue(value: Value)
  {
    value.None? || Blank(value.value)
  }

  /** The body of `relative_<field>=` up to the engine call. */
  function Interpret(value: Value, parsed: Parsed, store: seq<Row>, self: Row, opt: FieldOption): (r: Outcome<Command>)
    ensures BlankValue(value) ==> r == Ok(NoCommand)
    ensures r == Ok(CreateFirst) <==> !BlankValue(value) && parsed.Unparsed? && value == Some("first")
    ensures r == Ok(CreateLast) <==> !BlankValue(value) && parsed.Unparsed? && value == Some("last")
    ensures !BlankValue(value) && parsed.Unparsed? && value != Some("first") && value != Some("last") ==>
      r == Ok(NoCommand)
    ensures !BlankValue(value) && parsed.Object? ==> r == RelativeCommand(parsed.entries, store, self, opt.scope)
    ensures r.Ok? && (r.value.After? || r.value.Before?) ==>
      r.value.target.Some? && r.value.target.value in store && SameScope(r.value.target.value, self, opt.scope)
    ensures r.Ok? && r.value.Between? ==>
      (r.value.prev.Some? ==> r.value.prev.value in store && SameScope(r.value.prev.value, self, opt.scope)) &&
      (r.value.next.Some? ==> r.value.next.value in store && SameScope(r.value.next.value, self, opt.scope))
  {
    if BlankValue(value) then Ok(NoCommand)
    else match parsed
      case Object(entries) => RelativeCommand(entries, store, self, opt.scope)
      case Unparsed => Ok(KeywordCommand(value.value))
  }

  /** Only the first entry of a payload object decides the command. */
  lemma FirstEntryDecides(entries: seq<(string, Target)>, more: seq<(string, Target)>,
                           store: seq<Row>, self: Row, scope: seq<Sym>)
    requires entries != []
    ensures RelativeCommand(entries + more, store, self, scope) == RelativeCommand(entries[..1], store, self, scope)
  {
  }

  // ---- running the command ---------------------------------------------------

  /** What the setter does to the key field: nothing, or assign this value. */
  datatype Effect = Unchanged | Assign(value: Value)

  /**
   * The engine call for `cmd` (with the default challenge) and what it
   * assigns. The keyword branch calls `create_first_position` /
   * `create_last_position` on the ActiveRecordExtension, which has no such
   * methods (lib/narabikae/active_record_extension.rb:3-61), so it raises
   * NoMethodError while evaluating the argument, before anything is marked
   * or assigned.
   */
  function Run(pos: Position, ix: Indexer, cmd: Command, draws: seq<char>): (r: Outcome<Effect>)
    requires Retries(Omitted) <= |draws|
    ensures cmd.NoCommand? ==> r == Ok(Unchanged)
    ensures cmd.CreateFirst? || cmd.CreateLast? ==> r == Raise(NoMethodError)
    ensures cmd.After? ==> r == Ok(Assign(PositionAfter(pos, ix, cmd.target, Omitted, draws)))
    ensures cmd.Before? ==> r == Ok(Assign(PositionBefore(pos, ix, cmd.target, Omitted, draws)))
    ensures cmd.Between? ==>
      var b := PositionBetween(pos, ix, cmd.prev, cmd.next, Omitted, draws);
      (b.Ok? ==> r == Ok(Assign(b.value))) && (b.Raise? ==> r == Raise(b.error))
    ensures cmd.Between? ==>
      (r.Raise? <==>
         cmd.prev.Some? && cmd.next.Some? &&
         KeyOf(cmd.prev.value, pos.option.field).Some? != KeyOf(cmd.next.value, pos.option.field).Some?)
    ensures r.Raise? ==> r.error == NoMethodError || r.error == ArgumentError
    ensures r.Ok? && r.value.Assign? && r.value.value.Some? ==> Valid(pos, r.value.value.value)
  {
    match cmd
    case NoCommand => Ok(Unchanged)
    case CreateFirst => Raise(NoMethodError)
    case CreateLast => Raise(NoMethodError)
    case After(t) => Ok(Assign(PositionAfter(pos, ix, t, Omitted, draws)))
    case Before(t) => Ok(Assign(PositionBefore(pos, ix, t, Omitted, draws)))
    case Between(p, q) =>
      match PositionBetween(pos, ix, p, q, Omitted, draws)
      case Raise(e) => Raise(e)
      case Ok(r) => Ok(Assign(r))
  }

  /** `relative_<field>=(value)` as a whole, from the record's state before the call. */
  function RelativeEffect(value: Value, parsed: Parsed, pos: Position, ix: Indexer, draws: seq<char>): Outcome<Effect>
    requires Retries(Omitted) <= |draws|
  {
    match Interpret(value, parsed, pos.store, pos.record, pos.option)
    case Raise(e) => Raise(e)
    case Ok(cmd) => Run(pos, ix, cmd, draws)
  }

  /**
   * A blank value changes nothing; a non-JSON value never assigns, and the
   * two keywords raise; a payload assigns a valid key or nil.
   */
  lemma RelativeEffectResult(value: Value, parsed: Parsed, pos: Position, ix: Indexer, draws: seq<char>)
    requires Retries(Omitted) <= |draws|
    ensures BlankValue(value) ==> RelativeEffect(value, parsed, pos, ix, draws) == Ok(Unchanged)
    ensures !BlankValue(value) && parsed.Unparsed? && (value == Some("first") || value == Some("last")) ==>
      RelativeEffect(value, parsed, pos, ix, draws) == Raise(NoMethodError)
    ensures !BlankValue(value) && parsed.Unparsed? && value != Some("first") && value != Some("last") ==>
      RelativeEffect(value, parsed, pos, ix, draws) == Ok(Unchanged)
    ensures var e := RelativeEffect(value, parsed, pos, ix, draws);
      e.Ok? && e.value.Assign? ==> !BlankValue(value) && parsed.Object?
    ensures var e := RelativeEffect(value, parsed, pos, ix, draws);
      e.Ok? && e.value.Assign? && e.value.value.Some? ==> Valid(pos, e.value.value.value)
  {
  }

  /** The primary key identifies a row of the table. */
  predicate UniqueIds(store: seq<Row>)
  {
    forall i, j :: 0 <= i < j < |store| ==> store[i].id != store[j].id
  }

  /** With unique ids, the row `find` returns for an in-scope id is that row. */
  lemma FoundIsTarget(store: seq<Row>, self: Row, scope: seq<Sym>, t: Row)
    requires UniqueIds(store) && t in store && SameScope(t, self, scope)
    ensures FindTarget(store, self, scope, t.id) == Ok(t)
  {
    var r := FindTarget(store, self, scope, t.id).value;
    var i :| 0 <= i < |store| && store[i] == r;
    var j :| 0 <= j < |store| && store[j] == t;
    assert i == j;
  }

  /**
   * `{after: id}` naming an in-scope row assigns exactly what
   * `calculate_position_after` returns for that row; with an ordering
   * generator, a key found lies above the row's key.
   */
  lemma AfterPayloadLandsAbove(value: Value, more: seq<(string, Target)>, pos: Position, ix: Indexer,
                               t: Row, draws: seq<char>)
    requires Retries(Omitted) <= |draws| && !BlankValue(value)
    requires UniqueIds(pos.store) && t in pos.store && SameScope(t, pos.record, pos.option.scope)
    ensures var e := RelativeEffect(value, Object([("after", Single(IntId(t.id)))] + more), pos, ix, draws);
      e == Ok(Assign(PositionAfter(pos, ix, Some(t), Omitted, draws))) &&
      (Respects(ix) && e.value.value.Some? && KeyOf(t, pos.option.field).Some? ==>
         Lt(KeyOf(t, pos.option.field).value, e.value.value.value))
  {
    FoundIsTarget(pos.store, pos.record, pos.option.scope, t);
    if Respects(ix) && PositionAfter(pos, ix, Some(t), Omitted, draws).Some? {
      AfterIsAbove(pos, ix, Some(t), Omitted, draws);
    }
  }

  /**
   * `{before: id}` naming an in-scope row assigns exactly what
   * `calculate_position_before` returns for that row; with an ordering
   * generator, a key found lies below the row's key unless the generated key
   * is a prefix of it.
   */
  lemma BeforePayloadLandsBelow(value: Value, more: seq<(string, Target)>, pos: Position, ix: Indexer,
                                t: Row, draws: seq<char>)
    requires Retries(Omitted) <= |draws| && !BlankValue(value)
    requires UniqueIds(pos.store) && t in pos.store && SameScope(t, pos.record, pos.option.scope)
    ensures var e := RelativeEffect(value, Object([("before", Single(IntId(t.id)))] + more), pos, ix, draws);
      e == Ok(Assign(PositionBefore(pos, ix, Some(t), Omitted, draws))) &&
      (Respects(ix) && e.value.value.Some? && KeyOf(t, pos.option.field).Some? ==>
         var b := KeyOf(t, pos.option.field).value;
         Lt(e.value.value.value, b) || ix.generate(None, Some(b)).value <= b)
  {
    FoundIsTarget(pos.store, pos.record, pos.option.scope, t);
    if Respects(ix) && PositionBefore(pos, ix, Some(t), Omitted, draws).Some? {
      BeforeIsBelow(pos, ix, Some(t), Omitted, draws);
    }
  }

  /**
   * What `update_position_by_keyword` evidently means to do: assign the
   * record's create-first / create-last key, as `set_position` does.
   */
  function IntendedKeywordEffect(value: string, pos: Position, ix: Indexer): Outcome<Effect>
  {
    var k := if value == "first" then CreateFirstPosition(pos, ix) else CreateLastPosition(pos, ix);
    if value != "first" && value != "last" then Ok(Unchanged)
    else if k.Raise? then Raise(k.error)
    else Ok(Assign(Some(k.value)))
  }

  /**
   * With an ordering generator, the intended keyword effect puts the record
   * before every key of its partition for `"first"` and after every key for
   * `"last"`; it fails only when the generator does.
   */
  lemma IntendedKeywordAtEnd(value: string, pos: Position, ix: Indexer)
    requires Respects(ix)
    ensures var e := IntendedKeywordEffect(value, pos, ix);
      (e == Ok(Unchanged) <==> value != "first" && value != "last") &&
      (e.Raise? ==> e.error == GeneratorError) &&
      (e.Ok? && e.value.Assign? ==>
         e.value.value.Some? && e.value.value.value !in PartitionKeys(pos) &&
         (value == "first" ==> forall j :: j in PartitionKeys(pos) ==> Lt(e.value.value.value, j)) &&
         (value == "last" ==> forall j :: j in PartitionKeys(pos) ==> Lt(j, e.value.value.value)))
  {
    CreateFirstIsFirst(pos, ix);
    CreateLastIsLast(pos, ix);
  }

  /**
   * A keyword the setter evidently means to honour raises as written,
   * whatever the generator would have produced.
   */
  lemma KeywordRaises(value: Value, pos: Position, ix: Indexer, draws: seq<char>)
    requires Retries(Omitted) <= |draws|
    requires value == Some("first") || value == Some("last")
    ensures RelativeEffect(value, Unparsed, pos, ix, draws) == Raise(NoMethodError)
    ensures IntendedKeywordEffect(value.value, pos, ix) != Raise(NoMethodError)
  {
    assert !IsSpace(value.value[0]);
  }

  /**
   * `relative_<field>=` as Ruby resolves its calls. The helpers it calls
   * (lib/narabikae.rb:81-123) are private methods of the model class, being
   * defined inside `class_methods`, while the setter runs on an instance, so
   * every non-blank value raises NoMethodError at `parse_relative_position`.
   */
  function RelativeEffectAsWritten(value: Value): (e: Outcome<Effect>)
    ensures e.Raise? <==> !BlankValue(value)
    ensures e.Raise? ==> e.error == NoMethodError
    ensures e.Ok? ==> e.value.Unchanged?
  {
    if BlankValue(value) then Ok(Unchanged) else Raise(NoMethodError)
  }

  /** Every assignment the setter evidently intends is a NoMethodError as written. */
  lemma AsWrittenRefusesEveryAssignment(value: Value, parsed: Parsed, pos: Position, ix: Indexer, draws: seq<char>)
    requires Retries(Omitted) <= |draws|
    requires RelativeEffect(value, parsed, pos, ix, draws).Ok?
    requires RelativeEffect(value, parsed, pos, ix, draws).value.Assign?
    ensures RelativeEffectAsWritten(value) == Raise(NoMethodError)
  {
    RelativeEffectResult(value, parsed, pos, ix, draws);
  }

  /** `update_field_position`: mark the field changed, then assign, unconditionally. */
  method UpdateFieldPosition(rec: Entity, field: Sym, v: Value)
    modifies rec
    ensures rec.attrs == old(rec.attrs)[field := v]
    ensures rec.forced == old(rec.forced) + {field}
    ensures rec.original == old(rec.original)
    ensures rec.WillSaveChange(field)
  {
    rec.WillChange(field);
    rec.Assign(field, v);
  }

  /**
   * `relative_<field>=`. Unlike `move_to_*`, it assigns the engine's result
   * even when that is nil, and it does not save.
   */
  method SetRelativePosition(rec: Entity, opt: FieldOption, store: seq<Row>, ix: Indexer,
                             value: Value, parsed: Parsed, draws: seq<char>)
    returns (res: Outcome<Effect>)
    requires Retries(Omitted) <= |draws| && Drawn(draws, ix.digits)
    modifies rec
    ensures res == RelativeEffect(value, parsed, old(PositionOf(rec, opt, store)), ix, draws)
    ensures res.Ok? && res.value.Assign? ==>
      rec.attrs == old(rec.attrs)[opt.field := res.value.value] && rec.forced == old(rec.forced) + {opt.field}
    ensures !(res.Ok? && res.value.Assign?) ==> rec.attrs == old(rec.attrs) && rec.forced == old(rec.forced)
    ensures rec.original == old(rec.original)
  {
    var self := rec.Snapshot();
    var cmd := Interpret(value, parsed, store, self, opt);
    if cmd.Raise? {
      return Raise(cmd.error);
    }
    match cmd.value
    case NoCommand =>
      res := Ok(Unchanged);
    case CreateFirst =>
      res := Raise(NoMethodError);    // `extension.create_first_position`
    case CreateLast =>
      res := Raise(NoMethodError);    // `extension.create_last_position`
    case After(t) =>
      var k := CalculatePositionAfter(rec, opt, store, ix, t, Omitted, draws);
      UpdateFieldPosition(rec, opt.field, k);
      res := Ok(Assign(k));
    case Before(t) =>
      var k := CalculatePositionBefore(rec, opt, store, ix, t, Omitted, draws);
      UpdateFieldPosition(rec, opt.field, k);
      res := Ok(Assign(k));
    case Between(p, q) =>
      var k := CalculatePositionBetween(rec, opt, store, ix, p, q, Omitted, draws);
      if k.Raise? {
        return Raise(k.error);
      }
      UpdateFieldPosition(rec, opt.field, k.value);
      res := Ok(Assign(k.value));
  }

  // ---- hooks -------------------------------------------------------------------

  /** `before_create`: always set the position at the configured end. */
  method BeforeCreate(rec: Entity, opt: FieldOption, store: seq<Row>, ix: Indexer) returns (res: Outcome<string>)
    modifies rec
    ensures res == InsertKey(old(PositionOf(rec, opt, store)), ix)
    ensures res.Ok? ==> rec.attrs == old(rec.attrs)[opt.field := Some(res.value)]
    ensures res.Raise? ==> rec.attrs == old(rec.attrs)
    ensures rec.original == old(rec.original) && rec.forced == old(rec.forced)
  {
    res := SetPosition(rec, opt, store, ix);
  }

  /** `before_update`: set the position only when `auto_set_position?` holds; None when it does not. */
  method BeforeUpdate(rec: Entity, opt: FieldOption, store: seq<Row>, ix: Indexer) returns (res: Option<Outcome<string>>)
    modifies rec
    ensures res.Some? <==> old(AutoSetPosition(rec, opt, ix))
    ensures res.Some? ==> res.value == InsertKey(old(PositionOf(rec, opt, store)), ix)
    ensures res.Some? && res.value.Ok? ==> rec.attrs == old(rec.attrs)[opt.field := Some(res.value.value)]
    ensures res.None? || res.value.Raise? ==> rec.attrs == old(rec.attrs)
    ensures rec.original == old(rec.original) && rec.forced == old(rec.forced)
  {
    if AutoSetPosition(rec, opt, ix) {
      var r := SetPosition(rec, opt, store, ix);
      res := Some(r);
    } else {
      res := None;
    }
  }
}
