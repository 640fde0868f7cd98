/**
 * `Narabikae::Option`: the immutable, normalised configuration of one
 * ordered field. Being a datatype, a FieldOption cannot change after it is
 * built; the four readers are its destructors.
 */
module Options {

  /** A Ruby Symbol, identified by its name. */
  datatype Sym = Sym(name: string)

  /** An argument that is converted with `to_sym`: a String or a Symbol. */
  datatype NameArg = StringName(s: string) | SymbolName(s: string)

  /** An argument that is converted with `to_i`. */
  datatype SizeArg = IntegerSize(n: int) | StringSize(text: string) | NilSize

  /** The `scope:` argument: an Array of names, or any other object. */
  datatype ScopeArg = ArrayScope(items: seq<NameArg>) | OtherScope

  datatype FieldOption = FieldOption(field: Sym, keyMaxSize: int, scope: seq<Sym>, insertAt: Sym)

  function ToSym(n: NameArg): Sym
  {
    Sym(n.s)
  }

  function ScopeSyms(items: seq<NameArg>): (r: seq<Sym>)
    ensures |r| == |items|
    ensures forall i :: 0 <= i < |items| ==> r[i] == Sym(items[i].s)
  {
    if items == [] then [] else [ToSym(items[0])] + ScopeSyms(items[1..])
  }

  /** `Option#initialize` with its defaults `scope: []` and `insert_at: :last`. */
  function NewOption(field: NameArg, keyMaxSize: SizeArg,
                     scope: ScopeArg := ArrayScope([]),
                     insertAt: NameArg := SymbolName("last")): (o: FieldOption)
    ensures o.field.name == field.s && o.insertAt.name == insertAt.s
    ensures o.keyMaxSize == ToI(keyMaxSize)
    ensures scope.OtherScope? ==> o.scope == []
    ensures scope.ArrayScope? ==>
              |o.scope| == |scope.items| &&
              forall i :: 0 <= i < |scope.items| ==> o.scope[i].name == scope.items[i].s
  {
    FieldOption(
      ToSym(field),
      ToI(keyMaxSize),
      if scope.ArrayScope? then ScopeSyms(scope.items) else [],
      ToSym(insertAt))
  }

  // ---- `to_i` ---------------------------------------------------------------

  function ToI(a: SizeArg): int
  {
    match a
    case IntegerSize(n) => n
    case StringSize(t) => StringToI(t)
    case NilSize => 0
  }

  /** The whitespace Ruby's integer parser skips before the number. */
  predicate IsParseSpace(c: char)
  {
    c == ' ' || c == '\t' || c == '\n' || c == '\U{0B}' || c == '\U{0C}' || c == '\r'
  }

  predicate IsDigit(c: char)
  {
    '0' <= c <= '9'
  }

  function DigitValue(c: char): nat
    requires IsDigit(c)
  {
    (c as int) - ('0' as int)
  }

  function SkipSpace(s: string): string
  {
    if s != [] && IsParseSpace(s[0]) then SkipSpace(s[1..]) else s
  }

  /**
   * The longest leading run of decimal digits, where a single `_` between two
   * digits is skipped (`"1_000"` reads as 1000, `"1__0"` as 1).
   */
  function DigitRun(s: string): seq<nat>
  {
    if s == [] || !IsDigit(s[0]) then []
    else
      var rest := if |s| >= 3 && s[1] == '_' && IsDigit(s[2]) then s[2..] else s[1..];
      [DigitValue(s[0])] + DigitRun(rest)
  }

  /** The number a sequence of decimal digits denotes (most significant first). */
  function DigitsValue(ds: seq<nat>): nat
  {
    if ds == [] then 0 else DigitsValue(ds[..|ds| - 1]) * 10 + ds[|ds| - 1]
  }

  /** The base-10 radix prefix `0d` / `0D`, which the parser skips after the sign. */
  function SkipRadixPrefix(t: string): string
  {
    if |t| >= 2 && t[0] == '0' && (t[1] == 'd' || t[1] == 'D') then t[2..] else t
  }

  /** The unsigned part of the number: an optional `0d` prefix, then digits. */
  function Magnitude(t: string): nat
  {
    DigitsValue(DigitRun(SkipRadixPrefix(t)))
  }

  /** `String#to_i`: leading whitespace, an optional sign, an optional `0d`, then digits; 0 if none. */
  function StringToI(s: string): int
  {
    var t := SkipSpace(s);
    if t != [] && t[0] == '-' then 0 - Magnitude(t[1..]) as int
    else if t != [] && t[0] == '+' then Magnitude(t[1..])
    else Magnitude(t)
  }

  /** A string that starts with a digit is read without skipping or sign. */
  lemma StartsWithDigit(t: string)
    requires t != [] && IsDigit(t[0])
    ensures StringToI(t) == Magnitude(t)
  {
    assert SkipSpace(t) == t;
  }

  /** Digits alone carry no radix prefix. */
  lemma DigitsHaveNoPrefix(d: string)
    requires forall i :: 0 <= i < |d| ==> IsDigit(d[i])
    ensures SkipRadixPrefix(d) == d
  {
    if |d| >= 2 {
      assert IsDigit(d[1]);
    }
  }

  /** A `0d` / `0D` prefix after the sign does not change the number read. */
  lemma RadixPrefixIgnored(d: string)
    requires d != [] && forall i :: 0 <= i < |d| ==> IsDigit(d[i])
    ensures StringToI("0d" + d) == StringToI(d) == StringToI("0D" + d)
    ensures StringToI("-0d" + d) == -StringToI(d)
  {
    var lower, upper, negative := "0d" + d, "0D" + d, "-0d" + d;
    DigitsHaveNoPrefix(d);
    StartsWithDigit(d);
    StartsWithDigit(lower);
    StartsWithDigit(upper);
    assert lower[2..] == d && upper[2..] == d;
    assert SkipSpace(negative) == negative && negative[1..] == lower;
  }

  // ---- `to_s`, the inverse `to_i` is checked against ------------------------

  function DigitChar(d: nat): (c: char)
    requires d < 10
    ensures IsDigit(c) && DigitValue(c) == d
  {
    (('0' as int) + d) as char
  }

  /** `Integer#to_s` for a non-negative integer. */
  function Decimal(n: nat): (s: string)
    ensures s != [] && forall i :: 0 <= i < |s| ==> IsDigit(s[i])
  {
    if n < 10 then [DigitChar(n)] else Decimal(n / 10) + [DigitChar(n % 10)]
  }

  function IntegerToS(n: int): string
  {
    if n < 0 then "-" + Decimal(-n) else Decimal(n)
  }

  function Values(s: string): (ds: seq<nat>)
    requires forall i :: 0 <= i < |s| ==> IsDigit(s[i])
    ensures |ds| == |s| && forall i :: 0 <= i < |s| ==> ds[i] == DigitValue(s[i])
  {
    if s == [] then [] else [DigitValue(s[0])] + Values(s[1..])
  }

  lemma {:induction false} DigitRunOfDigits(s: string)
    requires forall i :: 0 <= i < |s| ==> IsDigit(s[i])
    ensures DigitRun(s) == Values(s)
  {
    if s != [] {
      DigitRunOfDigits(s[1..]);
    }
  }

  lemma {:induction false} DecimalValue(n: nat)
    ensures DigitsValue(Values(Decimal(n))) == n
  {
    if n >= 10 {
      DecimalValue(n / 10);
      var s := Decimal(n / 10);
      var vs := Values(s + [DigitChar(n % 10)]);
      assert vs[..|vs| - 1] == Values(s);
    }
  }

  /** A size written with `Integer#to_s` is read back by `String#to_i`. */
  lemma SizeRoundTrip(n: int)
    ensures ToI(StringSize(IntegerToS(n))) == n
  {
    var m: nat := if n < 0 then -n else n;
    var d := Decimal(m);
    DigitRunOfDigits(d);
    DecimalValue(m);
    DigitsHaveNoPrefix(d);
    if n < 0 {
      assert SkipSpace("-" + d) == "-" + d;
      assert ("-" + d)[1..] == d;
    } else {
      StartsWithDigit(d);
    }
  }
}
