/**
 * `Narabikae::ActiveRecordExtension`: the auto-reposition rule, the default
 * insertion end, and the `move_to_*` commands that assign a found key and
 * save, or report failure and leave the record alone.
 */
module Extension {
  import opened Base
  import opened Strings
  import opened Options
  import opened Store
  import opened Engine

  /** The Position object built for the record as it currently is in memory. */
  function PositionOf(rec: Entity, opt: FieldOption, store: seq<Row>): Position
    reads rec
  {
    Position(store, rec.Snapshot(), opt)
  }

  /** `option.scope.any? { |s| record.will_save_change_to_attribute?(s) }` */
  function AnyScopeChange(rec: Entity, scope: seq<Sym>): (r: bool)
    reads rec
    ensures r <==> exists a :: a in scope && rec.WillSaveChange(a)
  {
    if scope == [] then false
    else rec.WillSaveChange(scope[0]) || AnyScopeChange(rec, scope[1..])
  }

  /**
   * `auto_set_position?`: a current key the generator rejects as a lower
   * bound forces repositioning; otherwise reposition exactly when a scope
   * field changes and the key field does not.
   */
  function AutoSetPosition(rec: Entity, opt: FieldOption, ix: Indexer): (r: bool)
    reads rec
    ensures ix.generate(Attr(rec.attrs, opt.field), None).None? ==> r
    ensures ix.generate(Attr(rec.attrs, opt.field), None).Some? ==>
      (r <==> (exists a :: a in opt.scope && rec.WillSaveChange(a)) && !rec.WillSaveChange(opt.field))
    ensures opt.scope == [] && ix.generate(Attr(rec.attrs, opt.field), None).Some? ==> !r
  {
    match ix.generate(KeyOf(rec.Snapshot(), opt.field), None)
    case None => true
    case Some(_) => AnyScopeChange(rec, opt.scope) && !rec.WillSaveChange(opt.field)
  }

  /** The key `set_position` asks for: the last one when `insert_at == :last`, else the first. */
  function InsertKey(pos: Position, ix: Indexer): (r: Outcome<string>)
    ensures pos.option.insertAt == Sym("last") ==> r == CreateLastPosition(pos, ix)
    ensures pos.option.insertAt != Sym("last") ==> r == CreateFirstPosition(pos, ix)
    ensures r.Raise? ==> r.error == GeneratorError
  {
    if pos.option.insertAt == Sym("last") then CreateLastPosition(pos, ix) else CreateFirstPosition(pos, ix)
  }

  /**
   * With an ordering generator, the key `set_position` assigns lies beyond
   * every key of the record's (current) partition at the configured end.
   */
  lemma InsertKeyAtEnd(pos: Position, ix: Indexer)
    requires Respects(ix)
    ensures InsertKey(pos, ix).Ok? ==>
      var k := InsertKey(pos, ix).value;
      k !in PartitionKeys(pos) &&
      (pos.option.insertAt == Sym("last") ==> forall j :: j in PartitionKeys(pos) ==> Lt(j, k)) &&
      (pos.option.insertAt != Sym("last") ==> forall j :: j in PartitionKeys(pos) ==> Lt(k, j))
  {
    CreateLastIsLast(pos, ix);
    CreateFirstIsFirst(pos, ix);
  }

  /** `set_position`: assign the insertion-end key; a generator error escapes before any assignment. */
  method SetPosition(rec: Entity, opt: FieldOption, store: seq<Row>, ix: Indexer) returns (res: Outcome<string>)
    modifies rec
    ensures res == InsertKey(old(PositionOf(rec, opt, store)), ix)
    ensures res.Ok? ==> rec.attrs == old(rec.attrs)[opt.field := Some(res.value)]
    ensures res.Raise? ==> rec.attrs == old(rec.attrs)
    ensures rec.original == old(rec.original) && rec.forced == old(rec.forced)
  {
    var pos := PositionOf(rec, opt, store);
    if opt.insertAt == Sym("last") {
      res := CreateLastPosition(pos, ix);
    } else {
      res := CreateFirstPosition(pos, ix);
    }
    if res.Ok? {
      rec.Assign(opt.field, Some(res.value));
    }
  }

  method CalculatePositionAfter(rec: Entity, opt: FieldOption, store: seq<Row>, ix: Indexer,
                                target: Option<Row>, c: Challenge, draws: seq<char>)
    returns (r: Option<string>)
    requires Retries(c) <= |draws| && Drawn(draws, ix.digits)
    ensures r == PositionAfter(PositionOf(rec, opt, store), ix, target, c, draws)
  {
    r := FindPositionAfter(PositionOf(rec, opt, store), ix, target, c, draws);
  }

  method CalculatePositionBefore(rec: Entity, opt: FieldOption, store: seq<Row>, ix: Indexer,
                                 target: Option<Row>, c: Challenge, draws: seq<char>)
    returns (r: Option<string>)
    requires Retries(c) <= |draws| && Drawn(draws, ix.digits)
    ensures r == PositionBefore(PositionOf(rec, opt, store), ix, target, c, draws)
  {
    r := FindPositionBefore(PositionOf(rec, opt, store), ix, target, c, draws);
  }

  method CalculatePositionBetween(rec: Entity, opt: FieldOption, store: seq<Row>, ix: Indexer,
                                  prev: Option<Row>, next: Option<Row>, c: Challenge, draws: seq<char>)
    returns (r: Outcome<Option<string>>)
    requires Retries(c) <= |draws| && Drawn(draws, ix.digits)
    ensures r == PositionBetween(PositionOf(rec, opt, store), ix, prev, next, c, draws)
  {
    r := FindPositionBetween(PositionOf(rec, opt, store), ix, prev, next, c, draws);
  }

  /**
   * The tail every `move_to_*` shares: `return false if new_position.blank?`,
   * else assign the key and return what `save` returns.
   */
  method AssignAndSave(rec: Entity, opt: FieldOption, found: Option<string>, saveSucceeds: bool)
    returns (ok: bool)
    modifies rec
    ensures found.None? || Blank(found.value) ==>
      !ok && rec.attrs == old(rec.attrs) && rec.original == old(rec.original) && rec.forced == old(rec.forced)
    ensures found.Some? && !Blank(found.value) ==>
      ok == saveSucceeds && rec.attrs == old(rec.attrs)[opt.field := found]
    ensures found.Some? && !Blank(found.value) && ok ==> rec.original == rec.attrs && rec.forced == {}
    ensures found.Some? && !Blank(found.value) && !ok ==>
      rec.original == old(rec.original) && rec.forced == old(rec.forced)
  {
    if found.None? || Blank(found.value) {
      return false;
    }
    rec.Assign(opt.field, found);
    ok := rec.Save(saveSucceeds);
  }

  method MoveToAfter(rec: Entity, opt: FieldOption, store: seq<Row>, ix: Indexer,
                     target: Option<Row>, c: Challenge, draws: seq<char>, saveSucceeds: bool)
    returns (ok: bool)
    requires Retries(c) <= |draws| && Drawn(draws, ix.digits)
    modifies rec
    ensures var r := PositionAfter(old(PositionOf(rec, opt, store)), ix, target, c, draws);
      (r.None? ==> !ok && rec.attrs == old(rec.attrs) && rec.original == old(rec.original) && rec.forced == old(rec.forced)) &&
      (r.Some? ==> ok == saveSucceeds && rec.attrs == old(rec.attrs)[opt.field := r]) &&
      (r.Some? && ok ==> rec.original == rec.attrs && rec.forced == {}) &&
      (r.Some? && !ok ==> rec.original == old(rec.original) && rec.forced == old(rec.forced))
  {
    var r := CalculatePositionAfter(rec, opt, store, ix, target, c, draws);
    ok := AssignAndSave(rec, opt, r, saveSucceeds);
  }

  method MoveToBefore(rec: Entity, opt: FieldOption, store: seq<Row>, ix: Indexer,
                      target: Option<Row>, c: Challenge, draws: seq<char>, saveSucceeds: bool)
    returns (ok: bool)
    requires Retries(c) <= |draws| && Drawn(draws, ix.digits)
    modifies rec
    ensures var r := PositionBefore(old(PositionOf(rec, opt, store)), ix, target, c, draws);
      (r.None? ==> !ok && rec.attrs == old(rec.attrs) && rec.original == old(rec.original) && rec.forced == old(rec.forced)) &&
      (r.Some? ==> ok == saveSucceeds && rec.attrs == old(rec.attrs)[opt.field := r]) &&
      (r.Some? && ok ==> rec.original == rec.attrs && rec.forced == {}) &&
      (r.Some? && !ok ==> rec.original == old(rec.original) && rec.forced == old(rec.forced))
  {
    var r := CalculatePositionBefore(rec, opt, store, ix, target, c, draws);
    ok := AssignAndSave(rec, opt, r, saveSucceeds);
  }

  /** `move_to_between`; the ArgumentError of comparing a key with nil escapes unchanged. */
  method MoveToBetween(rec: Entity, opt: FieldOption, store: seq<Row>, ix: Indexer,
                       prev: Option<Row>, next: Option<Row>, c: Challenge, draws: seq<char>, saveSucceeds: bool)
    returns (res: Outcome<bool>)
    requires Retries(c) <= |draws| && Drawn(draws, ix.digits)
    modifies rec
    ensures var r := PositionBetween(old(PositionOf(rec, opt, store)), ix, prev, next, c, draws);
      (r.Raise? ==> res == Raise(r.error)) &&
      (r.Raise? || r.value.None? ==>
         (r.Ok? ==> res == Ok(false)) &&
         rec.attrs == old(rec.attrs) && rec.original == old(rec.original) && rec.forced == old(rec.forced)) &&
      (r.Ok? && r.value.Some? ==>
         res == Ok(saveSucceeds) && rec.attrs == old(rec.attrs)[opt.field := r.value]) &&
      (r.Ok? && r.value.Some? && saveSucceeds ==> rec.original == rec.attrs && rec.forced == {}) &&
      (r.Ok? && r.value.Some? && !saveSucceeds ==>
         rec.original == old(rec.original) && rec.forced == old(rec.forced))
  {
    var r := CalculatePositionBetween(rec, opt, store, ix, prev, next, c, draws);
    if r.Raise? {
      return Raise(r.error);
    }
    var ok := AssignAndSave(rec, opt, r.value, saveSucceeds);
    return Ok(ok);
  }
}
