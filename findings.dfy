/**
 * Concrete inputs on which the code as written departs from what it evidently
 * means to do, over one small table: a single ordered column `position`, no
 * scope, rows 1 and 3 holding "a1" and "a1V", and a generator that respects
 * its bounds.
 */
module Findings {
  import opened Base
  import opened Strings
  import opened Options
  import opened Store
  import opened Engine
  import opened Narabikae

  const Field := Sym("position")

  /** "a1" below "a1V", "a2" above "a1"; every other request fails. */
  function Gen(lo: Option<string>, hi: Option<string>): Option<string>
  {
    if lo == None && hi == Some("a1V") then Some("a1")
    else if lo == Some("a1") && hi == None then Some("a2")
    else None
  }

  function Ix(): Indexer
  {
    Indexer(Gen, "0123456789z")
  }

  function Table(): seq<Row>
  {
    [Row(1, map[Field := Some("a1")]), Row(3, map[Field := Some("a1V")])]
  }

  /** Record 2, not yet positioned, in a table with a key limit of 10. */
  function Pos(): Position
  {
    Position(Table(), Row(2, map[]), FieldOption(Field, 10, [], Sym("last")))
  }

  /** The generator above keeps the ordering contract. */
  lemma GenRespects()
    ensures Respects(Ix())
  {
    assert Lt("a1", "a1V") by {
      ExtensionNotBelow("a1", "V");
      assert "a1" + "V" == "a1V";
    }
    assert Lt("a1", "a2");
  }

  /** With no scope, the partition is the whole table, and its keys are its two keys. */
  lemma PartitionKeysOfTable()
    ensures PartitionKeys(Pos()) == ["a1", "a1V"]
  {
    var t, self := Table(), Pos().record;
    assert SameScope(t[0], self, []) && SameScope(t[1], self, []);
    assert t[..1][..0] == [];
    assert Partition(t[..1], self, []) == [t[0]];
    assert t[..|t| - 1] == t[..1];
    assert Partition(t, self, []) == t;
    assert t[1..][1..] == [];
    assert Keys(t[1..], Field) == ["a1V"];
    assert Keys(t, Field) == ["a1", "a1V"];
  }

  lemma GenCalls()
    ensures Ix().generate(None, Some("a1V")) == Some("a1")
    ensures Ix().generate(Some("a1"), None) == Some("a2")
  {
  }

  lemma TakenAndFree()
    ensures !Valid(Pos(), "a1")
    ensures Valid(Pos(), "a1z") && Valid(Pos(), "a2")
  {
    PartitionKeysOfTable();
    Free("a1z");
    Free("a2");
  }

  /** A short key starting with 'a' that is neither table key is valid. */
  lemma Free(k: string)
    requires PartitionKeys(Pos()) == ["a1", "a1V"]
    requires k != [] && k[0] == 'a' && |k| <= 10 && k != "a1" && k != "a1V"
    ensures Valid(Pos(), k)
  {
    NotBlank(k);
  }

  lemma NotBlank(k: string)
    requires k != [] && k[0] == 'a'
    ensures !Blank(k)
  {
    assert !IsSpace(k[0]);
  }

  /** "a1V" < "a1z", since 'V' < 'z'. */
  lemma TargetBelowRetry()
    ensures Lt("a1V", "a1z") && !Lt("a1z", "a1V")
  {
    assert "a1V"[1..] == "1V" && "a1z"[1..] == "1z";
    assert "1V"[1..] == "V" && "1z"[1..] == "z";
  }

  /** The retry after "a1" appends the single draw. */
  lemma RetryFindsA1z()
    ensures Search(Pos(), "a1", "z", 0, 1) == Some("a1z")
  {
    TakenAndFree();
    assert "z"[..0] == [] && "a1" + [] == "a1";
    assert "z"[..1] == "z" && "a1" + "z" == "a1z";
    assert Search(Pos(), "a1", "z", 1, 1) == Some("a1z");
  }

  /** Checking the bound, the only candidates are "a1" (taken) and "a1z" (above "a1V"). */
  lemma BoundedRetryFindsNothing()
    ensures SearchBelow(Pos(), "a1", Some("a1V"), "z", 0, 1) == None
  {
    TakenAndFree();
    TargetBelowRetry();
    assert "z"[..0] == [] && "a1" + [] == "a1";
    assert "z"[..1] == "z" && "a1" + "z" == "a1z";
    assert !Fits(Pos(), Some("a1V"), "a1z");
  }

  /**
   * `find_position_before` row 3 with `challenge: 1` and the draw 'z': the
   * generated "a1" is taken, so the retry appends 'z', and "a1z" sorts after
   * the target "a1V" it was meant to precede. Keeping to the bound instead
   * (`PlaceBelow`) gives nil.
   */
  lemma BeforeCanLandAfterTarget()
    ensures Respects(Ix())
    ensures PositionBefore(Pos(), Ix(), Some(Table()[1]), Given(Some(1)), "z") == Some("a1z")
    ensures Lt("a1V", "a1z")
    ensures PlaceBelow(Pos(), Ix(), None, Some("a1V"), 1, "z") == None
  {
    GenRespects();
    GenCalls();
    RetryFindsA1z();
    TargetBelowRetry();
    BoundedRetryFindsNothing();
    assert BeforeBound(Pos(), Some(Table()[1])) == Some("a1V");
  }

  /** The setter's after-row-1 request reaches the engine as `After(row 1)`. */
  lemma PayloadIsAfterRow1()
    ensures Interpret(Some("{\"after\":1}"), Object([("after", Single(IntId(1)))]), Table(), Pos().record, Pos().option)
         == Ok(After(Some(Table()[0])))
  {
    var v := "{\"after\":1}";
    assert !Blank(v) by { assert !IsSpace(v[0]); }
    assert FindTarget(Table(), Pos().record, [], 1) == Ok(Table()[0]);
  }

  /** After row 1 the generator gives "a2", which no row holds. */
  lemma AfterRow1IsA2()
    ensures PositionAfter(Pos(), Ix(), Some(Table()[0]), Omitted, "zzzzzzzzzz") == Some("a2")
  {
    GenCalls();
    TakenAndFree();
    assert AfterBound(Pos(), Some(Table()[0])) == Some("a1");
    assert "zzzzzzzzzz"[..0] == [] && "a2" + [] == "a2";
  }

  /**
   * `relative_position = '{"after":1}'`: the setter evidently means to place
   * the record after row 1, at "a2"; as written it raises NoMethodError.
   */
  lemma PayloadRefusedAsWritten()
    ensures RelativeEffect(Some("{\"after\":1}"), Object([("after", Single(IntId(1)))]), Pos(), Ix(), "zzzzzzzzzz")
         == Ok(Assign(Some("a2")))
    ensures RelativeEffectAsWritten(Some("{\"after\":1}")) == Raise(NoMethodError)
  {
    PayloadIsAfterRow1();
    AfterRow1IsA2();
  }
}
