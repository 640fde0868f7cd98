/**
 * The persistence the engine consults: a table of rows, the partition
 * ("scope") of a record, and the scoped MIN/MAX of the key column. The
 * in-memory ActiveRecord object is the class Entity, with just enough dirty
 * tracking for `will_save_change_to_attribute?` and `*_will_change!`.
 */
module Store {
  import opened Base
  import opened Options
  import opened Strings

  /** A column value: a string or SQL NULL / Ruby nil. */
  type Value = Option<string>

  /** A persisted row: its primary key and its attribute values. */
  datatype Row = Row(id: int, attrs: map<Sym, Value>)

  /** An attribute a row does not carry reads as nil. */
  function Attr(attrs: map<Sym, Value>, a: Sym): Value
  {
    if a in attrs then attrs[a] else None
  }

  /** `where(record.slice(*scope))` matches `r`: equal values (nil matches NULL) on every scope field. */
  predicate SameScope(r: Row, self: Row, scope: seq<Sym>)
  {
    forall a :: a in scope ==> Attr(r.attrs, a) == Attr(self.attrs, a)
  }

  /** `model.where(record.slice(*scope))`: the rows of `self`'s partition. */
  function Partition(store: seq<Row>, self: Row, scope: seq<Sym>): (p: seq<Row>)
    ensures forall r :: r in p <==> r in store && SameScope(r, self, scope)
  {
    if store == [] then []
    else
      var last := store[|store| - 1];
      Partition(store[..|store| - 1], self, scope) + (if SameScope(last, self, scope) then [last] else [])
  }

  /** The non-NULL values of column `field` among `rows`. */
  function Keys(rows: seq<Row>, field: Sym): (ks: seq<string>)
    ensures forall k :: k in ks <==> exists r :: r in rows && Attr(r.attrs, field) == Some(k)
  {
    if rows == [] then []
    else
      var rest := Keys(rows[1..], field);
      assert forall r :: r in rows[1..] ==> r in rows;
      match Attr(rows[0].attrs, field)
      case None => rest
      case Some(k) => [k] + rest
  }

  /** SQL `MAX(field)`: NULL when no key is present. */
  function MaxKey(ks: seq<string>): (m: Option<string>)
    ensures m.None? <==> ks == []
    ensures m.Some? ==> m.value in ks && forall k :: k in ks ==> k == m.value || Lt(k, m.value)
  {
    if ks == [] then None
    else
      match MaxKey(ks[1..])
      case None => Some(ks[0])
      case Some(rest) =>
        LtTrichotomy(ks[0], rest);
        if Lt(ks[0], rest) then Some(rest)
        else
          BelowTransfers(ks[1..], rest, ks[0]);
          Some(ks[0])
  }

  /** SQL `MIN(field)`: NULL when no key is present. */
  function MinKey(ks: seq<string>): (m: Option<string>)
    ensures m.None? <==> ks == []
    ensures m.Some? ==> m.value in ks && forall k :: k in ks ==> k == m.value || Lt(m.value, k)
  {
    if ks == [] then None
    else
      match MinKey(ks[1..])
      case None => Some(ks[0])
      case Some(rest) =>
        LtTrichotomy(ks[0], rest);
        if Lt(rest, ks[0]) then Some(rest)
        else
          AboveTransfers(ks[1..], rest, ks[0]);
          Some(ks[0])
  }

  lemma BelowTransfers(ks: seq<string>, m: string, t: string)
    requires forall k :: k in ks ==> k == m || Lt(k, m)
    requires m == t || Lt(m, t)
    ensures forall k :: k in ks ==> k == t || Lt(k, t)
  {
    forall k | k in ks && k != t && k != m ensures Lt(k, t) {
      if m != t { LtTransitive(k, m, t); }
    }
  }

  lemma AboveTransfers(ks: seq<string>, m: string, t: string)
    requires forall k :: k in ks ==> k == m || Lt(m, k)
    requires m == t || Lt(t, m)
    ensures forall k :: k in ks ==> k == t || Lt(t, k)
  {
    forall k | k in ks && k != t && k != m ensures Lt(t, k) {
      if m != t { LtTransitive(t, m, k); }
    }
  }

  /** An ActiveRecord object in memory. */
  class Entity {
    const id: int
    /** The current attribute values. */
    var attrs: map<Sym, Value>
    /** The values as last loaded from or saved to the store. */
    var original: map<Sym, Value>
    /** Attributes marked changed with `*_will_change!`. */
    var forced: set<Sym>

    /** The record's in-memory values, as the queries it issues see them. */
    function Snapshot(): Row
      reads this
    {
      Row(id, attrs)
    }

    /** `will_save_change_to_attribute?(a)`. */
    predicate WillSaveChange(a: Sym)
      reads this
    {
      a in forced || Attr(attrs, a) != Attr(original, a)
    }

    /** The attribute writer `a=`. */
    method Assign(a: Sym, v: Value)
      modifies this
      ensures attrs == old(attrs)[a := v]
      ensures original == old(original) && forced == old(forced)
    {
      attrs := attrs[a := v];
    }

    /** `a_will_change!`. */
    method WillChange(a: Sym)
      modifies this
      ensures WillSaveChange(a)
      ensures forced == old(forced) + {a}
      ensures attrs == old(attrs) && original == old(original)
    {
      forced := forced + {a};
    }

    /**
     * `save`, whose success is decided by the store and is an input here:
     * a successful save makes the current values the persisted ones.
     */
    method Save(succeeds: bool) returns (ok: bool)
      modifies this
      ensures ok == succeeds
      ensures attrs == old(attrs)
      ensures ok ==> original == attrs && forced == {}
      ensures !ok ==> original == old(original) && forced == old(forced)
    {
      ok := succeeds;
      if ok {
        original := attrs;
        forced := {};
      }
    }
  }
}
