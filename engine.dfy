/**
 * `Narabikae::Position`: the position-assignment engine. It asks the
 * fractional-indexing generator for a key between two optional bounds and,
 * when that key is not valid in the record's partition, appends random
 * non-zero digits to it, up to `challenge` times.
 */
module Engine {
  import opened Base
  import opened Strings
  import opened Options
  import opened Store

  /**
   * `FractionalIndexer.generate_key(prev_key:, next_key:)`; None stands for
   * the call raising FractionalIndexer::Error.
   */
  type Generator = (Option<string>, Option<string>) -> Option<string>

  /** The fractional-indexing library: its generator and its digit alphabet. */
  datatype Indexer = Indexer(generate: Generator, digits: seq<char>)

  /**
   * The ordering contract the generator is relied on for: a generated key is
   * above the lower bound and below the upper bound, when these are given.
   */
  ghost predicate Respects(ix: Indexer)
  {
    forall lo, hi :: ix.generate(lo, hi).Some? ==>
      (lo.Some? ==> Lt(lo.value, ix.generate(lo, hi).value)) &&
      (hi.Some? ==> Lt(ix.generate(lo, hi).value, hi.value))
  }

  /**
   * The characters `random_fractional` returned, one per retry: each is a
   * sample of the alphabet without its first (zero) digit.
   */
  predicate Drawn(draws: seq<char>, digits: seq<char>)
  {
    forall i :: 0 <= i < |draws| ==> |digits| > 0 && draws[i] in digits[1..]
  }

  /** A Position object: the record it places, its option, and the table it queries. */
  datatype Position = Position(store: seq<Row>, record: Row, option: FieldOption)

  /** `target.send(option.field)`. */
  function KeyOf(r: Row, field: Sym): Value
  {
    Attr(r.attrs, field)
  }

  /** The keys held in the record's partition. */
  function PartitionKeys(pos: Position): seq<string>
  {
    Keys(Partition(pos.store, pos.record, pos.option.scope), pos.option.field)
  }

  function CurrentFirstPosition(pos: Position): Value
  {
    MinKey(PartitionKeys(pos))
  }

  function CurrentLastPosition(pos: Position): Value
  {
    MaxKey(PartitionKeys(pos))
  }

  // ---- validity -------------------------------------------------------------

  /** `option.key_max_size >= key.size` */
  predicate Capable(pos: Position, k: string)
  {
    pos.option.keyMaxSize >= |k|
  }

  /** A key too long for the column stays too long however it is extended. */
  lemma CapableIsPrefixClosed(pos: Position, k: string, s: string)
    ensures Capable(pos, k + s) ==> Capable(pos, k)
  {
  }

  /** `model.where(field => k).merge(model_scope).empty?` */
  predicate Uniq(pos: Position, k: string)
    ensures Uniq(pos, k) <==> k !in PartitionKeys(pos)
  {
    forall r :: r in Partition(pos.store, pos.record, pos.option.scope) ==> KeyOf(r, pos.option.field) != Some(k)
  }

  /** `valid?`: not blank, short enough, and held by no row of the partition. */
  predicate Valid(pos: Position, k: string)
    ensures Valid(pos, k) <==> !Blank(k) && |k| <= pos.option.keyMaxSize && k !in PartitionKeys(pos)
    ensures Valid(pos, k) ==> k != []
  {
    !Blank(k) && Capable(pos, k) && Uniq(pos, k)
  }

  /**
   * Validity spelled out against the whole table: only rows whose scope
   * values equal the record's are consulted.
   */
  lemma ValidIff(pos: Position, k: string)
    ensures Valid(pos, k) <==>
      !Blank(k) && |k| <= pos.option.keyMaxSize &&
      forall i :: 0 <= i < |pos.store| && SameScope(pos.store[i], pos.record, pos.option.scope) ==>
        KeyOf(pos.store[i], pos.option.field) != Some(k)
  {
  }

  /** Rows of other partitions never affect validity. */
  lemma ValidIgnoresOtherPartitions(pos: Position, extra: seq<Row>, k: string)
    requires forall r :: r in extra ==> !SameScope(r, pos.record, pos.option.scope)
    ensures Valid(pos.(store := pos.store + extra), k) == Valid(pos, k)
  {
  }

  // ---- creating the first / last key ---------------------------------------

  /** `create_last_position`: the generator's key above the partition maximum, unchecked. */
  function CreateLastPosition(pos: Position, ix: Indexer): (r: Outcome<string>)
    ensures r.Raise? <==> ix.generate(CurrentLastPosition(pos), None).None?
    ensures r.Raise? ==> r.error == GeneratorError
    ensures r.Ok? ==> ix.generate(CurrentLastPosition(pos), None) == Some(r.value)
  {
    match ix.generate(CurrentLastPosition(pos), None)
    case None => Raise(GeneratorError)
    case Some(k) => Ok(k)
  }

  /** `create_first_position`: the generator's key below the partition minimum, unchecked. */
  function CreateFirstPosition(pos: Position, ix: Indexer): (r: Outcome<string>)
    ensures r.Raise? <==> ix.generate(None, CurrentFirstPosition(pos)).None?
    ensures r.Raise? ==> r.error == GeneratorError
    ensures r.Ok? ==> ix.generate(None, CurrentFirstPosition(pos)) == Some(r.value)
  {
    match ix.generate(None, CurrentFirstPosition(pos))
    case None => Raise(GeneratorError)
    case Some(k) => Ok(k)
  }

  /** A created last key is above every key of the partition, hence held by none of its rows. */
  lemma CreateLastIsLast(pos: Position, ix: Indexer)
    requires Respects(ix)
    ensures CreateLastPosition(pos, ix).Ok? ==>
      var k := CreateLastPosition(pos, ix).value;
      (forall j :: j in PartitionKeys(pos) ==> Lt(j, k)) && k !in PartitionKeys(pos)
    ensures CreateLastPosition(pos, ix).Raise? <==> ix.generate(CurrentLastPosition(pos), None).None?
  {
    var ks := PartitionKeys(pos);
    if CreateLastPosition(pos, ix).Ok? && ks != [] {
      var k := CreateLastPosition(pos, ix).value;
      var m := MaxKey(ks).value;
      assert Lt(m, k);
      forall j | j in ks ensures Lt(j, k) {
        if j != m { LtTransitive(j, m, k); }
      }
      LtIrreflexive(k);
    }
  }

  /** A created first key is below every key of the partition, hence held by none of its rows. */
  lemma CreateFirstIsFirst(pos: Position, ix: Indexer)
    requires Respects(ix)
    ensures CreateFirstPosition(pos, ix).Ok? ==>
      var k := CreateFirstPosition(pos, ix).value;
      (forall j :: j in PartitionKeys(pos) ==> Lt(k, j)) && k !in PartitionKeys(pos)
    ensures CreateFirstPosition(pos, ix).Raise? <==> ix.generate(None, CurrentFirstPosition(pos)).None?
  {
    var ks := PartitionKeys(pos);
    if CreateFirstPosition(pos, ix).Ok? && ks != [] {
      var k := CreateFirstPosition(pos, ix).value;
      var m := MinKey(ks).value;
      assert Lt(k, m);
      forall j | j in ks ensures Lt(k, j) {
        if j != m { LtTransitive(k, m, j); }
      }
      LtIrreflexive(k);
    }
  }

  // ---- retry ----------------------------------------------------------------

  /** The `challenge:` keyword argument: omitted, or given (possibly nil). */
  datatype Challenge = Omitted | Given(count: Option<int>)

  /** How often `(merged_args[:challenge] || 0).times` runs its block. */
  function Retries(c: Challenge): (n: nat)
    ensures c.Omitted? ==> n == 10
    ensures c.Given? && c.count.Some? && c.count.value > 0 ==> n == c.count.value
    ensures c.Given? && (c.count.None? || c.count.value <= 0) ==> n == 0
  {
    match c
    case Omitted => 10
    case Given(None) => 0
    case Given(Some(n)) => if n < 0 then 0 else n
  }

  /**
   * The first valid candidate among `key + draws[..j]` for `i <= j <= n`,
   * in increasing `j`; None when none of them is valid.
   */
  function Search(pos: Position, key: string, draws: seq<char>, i: nat, n: nat): (r: Option<string>)
    requires i <= n <= |draws|
    ensures r.Some? ==>
      Valid(pos, r.value) &&
      exists j :: i <= j <= n && r.value == key + draws[..j] &&
        forall m :: i <= m < j ==> !Valid(pos, key + draws[..m])
    ensures r.None? <==> forall j :: i <= j <= n ==> !Valid(pos, key + draws[..j])
    decreases n - i
  {
    if Valid(pos, key + draws[..i]) then Some(key + draws[..i])
    else if i == n then None
    else Search(pos, key, draws, i + 1, n)
  }

  /**
   * One `find_position_*` call once its bounds are known: generate, then
   * search the candidates; a generator error becomes nil.
   */
  function Place(pos: Position, ix: Indexer, lo: Value, hi: Value, n: nat, draws: seq<char>): (r: Option<string>)
    requires n <= |draws|
  {
    match ix.generate(lo, hi)
    case None => None
    case Some(k) => Search(pos, k, draws, 0, n)
  }

  /** What `Place` returns: nil, or a valid extension of the generated key by at most `n` draws. */
  lemma PlaceResult(pos: Position, ix: Indexer, lo: Value, hi: Value, n: nat, draws: seq<char>)
    requires n <= |draws|
    ensures ix.generate(lo, hi).None? ==> Place(pos, ix, lo, hi, n, draws).None?
    ensures Place(pos, ix, lo, hi, n, draws).Some? ==>
      var k := Place(pos, ix, lo, hi, n, draws).value;
      var g := ix.generate(lo, hi).value;
      Valid(pos, k) && g <= k && exists j :: 0 <= j <= n && k == g + draws[..j]
    ensures ix.generate(lo, hi).Some? ==>
      var g := ix.generate(lo, hi).value;
      (Place(pos, ix, lo, hi, n, draws).None? <==> forall j :: 0 <= j <= n ==> !Valid(pos, g + draws[..j]))
  {
  }

  /** A generated key over the length limit cannot be rescued by appending characters. */
  lemma TooLongIsNeverPlaced(pos: Position, ix: Indexer, lo: Value, hi: Value, n: nat, draws: seq<char>)
    requires n <= |draws|
    requires ix.generate(lo, hi).Some? && |ix.generate(lo, hi).value| > pos.option.keyMaxSize
    ensures Place(pos, ix, lo, hi, n, draws).None?
  {
  }

  /**
   * With an ordering generator, a placed key is above the lower bound, and
   * below the upper bound unless the generated key is a prefix of it (only
   * then can an appended digit carry a candidate past the upper bound).
   */
  lemma PlacedWithinBounds(pos: Position, ix: Indexer, lo: Value, hi: Value, n: nat, draws: seq<char>)
    requires n <= |draws| && Respects(ix)
    requires Place(pos, ix, lo, hi, n, draws).Some?
    ensures var k := Place(pos, ix, lo, hi, n, draws).value;
      var g := ix.generate(lo, hi).value;
      (lo.Some? ==> Lt(lo.value, k)) &&
      (hi.Some? ==> Lt(k, hi.value) || g <= hi.value)
  {
    PlaceResult(pos, ix, lo, hi, n, draws);
    var k := Place(pos, ix, lo, hi, n, draws).value;
    var g := ix.generate(lo, hi).value;
    var j :| 0 <= j <= n && k == g + draws[..j];
    if lo.Some? {
      AboveStaysAbove(lo.value, g, draws[..j]);
    }
    if hi.Some? && !(g <= hi.value) {
      BelowStaysBelow(g, hi.value, draws[..j]);
    }
  }

  // ---- the three finders, as specifications --------------------------------

  /** `target&.send(field) || current_last_position` */
  function AfterBound(pos: Position, target: Option<Row>): Value
  {
    if target.Some? && KeyOf(target.value, pos.option.field).Some?
    then KeyOf(target.value, pos.option.field)
    else CurrentLastPosition(pos)
  }

  /** `target&.send(field) || current_first_position` */
  function BeforeBound(pos: Position, target: Option<Row>): Value
  {
    if target.Some? && KeyOf(target.value, pos.option.field).Some?
    then KeyOf(target.value, pos.option.field)
    else CurrentFirstPosition(pos)
  }

  function PositionAfter(pos: Position, ix: Indexer, target: Option<Row>, c: Challenge, draws: seq<char>): Option<string>
    requires Retries(c) <= |draws|
  {
    Place(pos, ix, AfterBound(pos, target), None, Retries(c), draws)
  }

  function PositionBefore(pos: Position, ix: Indexer, target: Option<Row>, c: Challenge, draws: seq<char>): Option<string>
    requires Retries(c) <= |draws|
  {
    Place(pos, ix, None, BeforeBound(pos, target), Retries(c), draws)
  }

  /**
   * `[a, b].minmax` on two key values: Strings are ordered, two nils are
   * equal, and a String against nil raises ArgumentError.
   */
  function MinMax(a: Value, b: Value): (r: Outcome<(Value, Value)>)
    ensures r.Raise? <==> a.Some? != b.Some?
    ensures r.Raise? ==> r.error == ArgumentError
    ensures a.None? && b.None? ==> r == Ok((None, None))
    ensures r.Ok? && a.Some? ==>
      r.value.0.Some? && r.value.1.Some? &&
      multiset{r.value.0.value, r.value.1.value} == multiset{a.value, b.value} &&
      !Lt(r.value.1.value, r.value.0.value)
  {
    if a.Some? && b.Some? then
      LtTrichotomy(a.value, b.value);
      if Lt(b.value, a.value) then Ok((b, a)) else Ok((a, b))
    else if a.None? && b.None? then Ok((None, None))
    else Raise(ArgumentError)
  }

  function PositionBetween(pos: Position, ix: Indexer, prev: Option<Row>, next: Option<Row>,
                           c: Challenge, draws: seq<char>): Outcome<Option<string>>
    requires Retries(c) <= |draws|
  {
    if prev.None? then Ok(PositionBefore(pos, ix, next, c, draws))
    else if next.None? then Ok(PositionAfter(pos, ix, prev, c, draws))
    else
      match MinMax(KeyOf(prev.value, pos.option.field), KeyOf(next.value, pos.option.field))
      case Raise(e) => Raise(e)
      case Ok(bounds) => Ok(Place(pos, ix, bounds.0, bounds.1, Retries(c), draws))
  }

  // ---- properties of the finders -------------------------------------------

  /**
   * A key found after a target is above the target's key; after no target
   * (or a target without a key) it is above every key of the partition.
   */
  lemma AfterIsAbove(pos: Position, ix: Indexer, target: Option<Row>, c: Challenge, draws: seq<char>)
    requires Retries(c) <= |draws| && Respects(ix)
    requires PositionAfter(pos, ix, target, c, draws).Some?
    ensures var k := PositionAfter(pos, ix, target, c, draws).value;
      (target.Some? && KeyOf(target.value, pos.option.field).Some? ==>
         Lt(KeyOf(target.value, pos.option.field).value, k)) &&
      (target.None? || KeyOf(target.value, pos.option.field).None? ==>
         forall j :: j in PartitionKeys(pos) ==> Lt(j, k))
  {
    var k := PositionAfter(pos, ix, target, c, draws).value;
    PlacedWithinBounds(pos, ix, AfterBound(pos, target), None, Retries(c), draws);
    var ks := PartitionKeys(pos);
    if (target.None? || KeyOf(target.value, pos.option.field).None?) && ks != [] {
      BelowTransfers(ks, MaxKey(ks).value, k);
      LtIrreflexive(k);
    }
  }

  /**
   * A key found before a target is below the target's key (before no target:
   * below the partition minimum), unless the generated key is a prefix of
   * that bound.
   */
  lemma BeforeIsBelow(pos: Position, ix: Indexer, target: Option<Row>, c: Challenge, draws: seq<char>)
    requires Retries(c) <= |draws| && Respects(ix)
    requires PositionBefore(pos, ix, target, c, draws).Some?
    ensures var k := PositionBefore(pos, ix, target, c, draws).value;
      var b := BeforeBound(pos, target);
      var g := ix.generate(None, b).value;
      (target.Some? && KeyOf(target.value, pos.option.field).Some? ==>
         b == KeyOf(target.value, pos.option.field)) &&
      (target.None? || KeyOf(target.value, pos.option.field).None? ==> b == CurrentFirstPosition(pos)) &&
      (b.Some? ==> Lt(k, b.value) || g <= b.value) &&
      (b.None? ==> PartitionKeys(pos) == []) &&
      (target.None? || KeyOf(target.value, pos.option.field).None? ==>
         (forall j :: j in PartitionKeys(pos) ==> Lt(k, j)) || g <= b.value)
  {
    var k := PositionBefore(pos, ix, target, c, draws).value;
    var b := BeforeBound(pos, target);
    PlacedWithinBounds(pos, ix, None, b, Retries(c), draws);
    var ks := PartitionKeys(pos);
    if (target.None? || KeyOf(target.value, pos.option.field).None?) && ks != [] && Lt(k, b.value) {
      AboveTransfers(ks, MinKey(ks).value, k);
    }
  }

  /** `find_position_between` does not depend on the order of its two present targets. */
  lemma BetweenIsSymmetric(pos: Position, ix: Indexer, prev: Row, next: Row, c: Challenge, draws: seq<char>)
    requires Retries(c) <= |draws|
    ensures PositionBetween(pos, ix, Some(prev), Some(next), c, draws)
         == PositionBetween(pos, ix, Some(next), Some(prev), c, draws)
  {
    var a, b := KeyOf(prev, pos.option.field), KeyOf(next, pos.option.field);
    if a.Some? && b.Some? {
      LtTrichotomy(a.value, b.value);
    }
  }

  /**
   * A key found between two targets with keys is above the smaller key, and
   * below the larger one unless the generated key is a prefix of it.
   */
  lemma BetweenIsBetween(pos: Position, ix: Indexer, prev: Row, next: Row, c: Challenge, draws: seq<char>)
    requires Retries(c) <= |draws| && Respects(ix)
    requires KeyOf(prev, pos.option.field).Some? && KeyOf(next, pos.option.field).Some?
    requires PositionBetween(pos, ix, Some(prev), Some(next), c, draws).Ok?
    requires PositionBetween(pos, ix, Some(prev), Some(next), c, draws).value.Some?
    ensures var k := PositionBetween(pos, ix, Some(prev), Some(next), c, draws).value.value;
      var p, q := KeyOf(prev, pos.option.field).value, KeyOf(next, pos.option.field).value;
      var lo, hi := if Lt(q, p) then q else p, if Lt(q, p) then p else q;
      var g := ix.generate(Some(lo), Some(hi)).value;
      Lt(lo, k) && (Lt(k, hi) || g <= hi)
  {
    var p, q := KeyOf(prev, pos.option.field).value, KeyOf(next, pos.option.field).value;
    var bounds := MinMax(Some(p), Some(q)).value;
    PlacedWithinBounds(pos, ix, bounds.0, bounds.1, Retries(c), draws);
  }

  // ---- a retry that keeps to the upper bound --------------------------------

  /** A candidate the retry loop evidently means to accept: valid, and below `hi` when there is one. */
  predicate Fits(pos: Position, hi: Value, k: string)
  {
    Valid(pos, k) && (hi.Some? ==> Lt(k, hi.value))
  }

  /** `Search` with the upper bound checked as well as validity. */
  function SearchBelow(pos: Position, key: string, hi: Value, draws: seq<char>, i: nat, n: nat): (r: Option<string>)
    requires i <= n <= |draws|
    ensures r.Some? ==>
      Fits(pos, hi, r.value) &&
      exists j :: i <= j <= n && r.value == key + draws[..j] &&
        forall m :: i <= m < j ==> !Fits(pos, hi, key + draws[..m])
    ensures r.None? <==> forall j :: i <= j <= n ==> !Fits(pos, hi, key + draws[..j])
    decreases n - i
  {
    if Fits(pos, hi, key + draws[..i]) then Some(key + draws[..i])
    else if i == n then None
    else SearchBelow(pos, key, hi, draws, i + 1, n)
  }

  /** `Place` with retries that never leave the interval between the bounds. */
  function PlaceBelow(pos: Position, ix: Indexer, lo: Value, hi: Value, n: nat, draws: seq<char>): Option<string>
    requires n <= |draws|
  {
    match ix.generate(lo, hi)
    case None => None
    case Some(k) => SearchBelow(pos, k, hi, draws, 0, n)
  }

  /** With an ordering generator, a key placed by `PlaceBelow` lies strictly between both bounds. */
  lemma PlaceBelowWithinBounds(pos: Position, ix: Indexer, lo: Value, hi: Value, n: nat, draws: seq<char>)
    requires n <= |draws| && Respects(ix)
    requires PlaceBelow(pos, ix, lo, hi, n, draws).Some?
    ensures var k := PlaceBelow(pos, ix, lo, hi, n, draws).value;
      Valid(pos, k) && (lo.Some? ==> Lt(lo.value, k)) && (hi.Some? ==> Lt(k, hi.value))
  {
    var k := PlaceBelow(pos, ix, lo, hi, n, draws).value;
    var g := ix.generate(lo, hi).value;
    var j :| 0 <= j <= n && k == g + draws[..j];
    if lo.Some? {
      AboveStaysAbove(lo.value, g, draws[..j]);
    }
  }

  /** Where every valid candidate is already below `hi`, checking the bound changes nothing. */
  lemma {:induction false} SearchBelowIsSearch(pos: Position, key: string, hi: Value, draws: seq<char>, i: nat, n: nat)
    requires i <= n <= |draws|
    requires forall j :: i <= j <= n && Valid(pos, key + draws[..j]) ==> Fits(pos, hi, key + draws[..j])
    ensures SearchBelow(pos, key, hi, draws, i, n) == Search(pos, key, draws, i, n)
    decreases n - i
  {
    var c := key + draws[..i];
    assert Fits(pos, hi, c) == Valid(pos, c);
    if i < n {
      SearchBelowIsSearch(pos, key, hi, draws, i + 1, n);
    }
  }

  /**
   * `PlaceBelow` differs from the source's `Place` only when the generated
   * key is a prefix of the upper bound.
   */
  lemma PlaceBelowAgreesOffPrefix(pos: Position, ix: Indexer, lo: Value, hi: Value, n: nat, draws: seq<char>)
    requires n <= |draws| && Respects(ix)
    requires ix.generate(lo, hi).Some? && (hi.Some? ==> !(ix.generate(lo, hi).value <= hi.value))
    ensures PlaceBelow(pos, ix, lo, hi, n, draws) == Place(pos, ix, lo, hi, n, draws)
  {
    var g := ix.generate(lo, hi).value;
    forall j | 0 <= j <= n && Valid(pos, g + draws[..j]) ensures Fits(pos, hi, g + draws[..j]) {
      if hi.Some? {
        BelowStaysBelow(g, hi.value, draws[..j]);
      }
    }
    SearchBelowIsSearch(pos, g, hi, draws, 0, n);
  }

  // ---- the finders as the source runs them ---------------------------------

  /** One turn of the retry loop: an invalid candidate passes the search on to the next one. */
  lemma SearchStep(pos: Position, key: string, draws: seq<char>, i: nat, n: nat)
    requires i < n <= |draws| && !Valid(pos, key + draws[..i])
    ensures Search(pos, key, draws, i, n) == Search(pos, key, draws, i + 1, n)
    ensures key + draws[..i + 1] == (key + draws[..i]) + [draws[i]]
  {
    assert draws[..i + 1] == draws[..i] + [draws[i]];
  }

  /** `return key if valid?(key)`, then `challenge.times { key += random_fractional; ... }` */
  method Retry(pos: Position, key: string, draws: seq<char>, n: nat) returns (r: Option<string>)
    requires n <= |draws|
    ensures r == Search(pos, key, draws, 0, n)
  {
    var k := key;
    assert k == key + draws[..0];
    if Valid(pos, k) {
      return Some(k);
    }
    var i := 0;
    while i < n
      invariant 0 <= i <= n
      invariant k == key + draws[..i]
      invariant !Valid(pos, k)
      invariant Search(pos, key, draws, 0, n) == Search(pos, key, draws, i, n)
    {
      SearchStep(pos, key, draws, i, n);
      k := k + [draws[i]];
      i := i + 1;
      if Valid(pos, k) {
        return Some(k);
      }
    }
    return None;
  }

  method FindPositionAfter(pos: Position, ix: Indexer, target: Option<Row>, c: Challenge, draws: seq<char>)
    returns (r: Option<string>)
    requires Retries(c) <= |draws| && Drawn(draws, ix.digits)
    ensures r == PositionAfter(pos, ix, target, c, draws)
    ensures r.Some? ==> Valid(pos, r.value)
  {
    var g := ix.generate(AfterBound(pos, target), None);
    if g.None? {
      return None;
    }
    r := Retry(pos, g.value, draws, Retries(c));
  }

  method FindPositionBefore(pos: Position, ix: Indexer, target: Option<Row>, c: Challenge, draws: seq<char>)
    returns (r: Option<string>)
    requires Retries(c) <= |draws| && Drawn(draws, ix.digits)
    ensures r == PositionBefore(pos, ix, target, c, draws)
    ensures r.Some? ==> Valid(pos, r.value)
  {
    var g := ix.generate(None, BeforeBound(pos, target));
    if g.None? {
      return None;
    }
    r := Retry(pos, g.value, draws, Retries(c));
  }

  method FindPositionBetween(pos: Position, ix: Indexer, prev: Option<Row>, next: Option<Row>,
                             c: Challenge, draws: seq<char>)
    returns (r: Outcome<Option<string>>)
    requires Retries(c) <= |draws| && Drawn(draws, ix.digits)
    ensures r == PositionBetween(pos, ix, prev, next, c, draws)
    ensures r.Ok? && r.value.Some? ==> Valid(pos, r.value.value)
  {
    if prev.None? {
      var k := FindPositionBefore(pos, ix, next, c, draws);
      return Ok(k);
    }
    if next.None? {
      var k := FindPositionAfter(pos, ix, prev, c, draws);
      return Ok(k);
    }
    var bounds := MinMax(KeyOf(prev.value, pos.option.field), KeyOf(next.value, pos.option.field));
    if bounds.Raise? {
      return Raise(bounds.error);
    }
    var g := ix.generate(bounds.value.0, bounds.value.1);
    if g.None? {
      return Ok(None);
    }
    var k := Retry(pos, g.value, draws, Retries(c));
    return Ok(k);
  }
}
