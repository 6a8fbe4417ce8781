/**
 * The packed resource value stored per map node: a resource type and an
 * amount of at most 15 share one byte.  The byte layout used here is
 * type * 16 + amount (type in the high nibble, amount in the low nibble).
 */
module GameTypes {

  newtype uint8 = x: int | 0 <= x < 256

  datatype ResourceType = Nothing | Gold | Iron | Coal | Granite | Water | Fish

  /** Position of a type in the enumeration; doubles as its 4-bit code. */
  function TypeCode(t: ResourceType): (c: nat)
    ensures c < 7
    ensures c == 0 <==> t == Nothing
  {
    match t
    case Nothing => 0
    case Gold => 1
    case Iron => 2
    case Coal => 3
    case Granite => 4
    case Water => 5
    case Fish => 6
  }

  /** The type with a given code, if the code names one. */
  function TypeOfCode(c: nat): (t: ResourceType)
    requires c < 7
    ensures TypeCode(t) == c
  {
    if c == 0 then Nothing
    else if c == 1 then Gold
    else if c == 2 then Iron
    else if c == 3 then Coal
    else if c == 4 then Granite
    else if c == 5 then Water
    else Fish
  }

  /** Only the low four bits of an amount fit into the packed value. */
  function StoredAmount(amount: nat): (a: nat)
    ensures a < 16
    ensures amount < 16 ==> a == amount
    ensures amount >= 16 ==> a < amount
  {
    amount % 16
  }

  /** A byte is a valid packed value when its type code names a type and a
      Nothing type carries no amount. */
  predicate IsValidValue(v: uint8) {
    (v as int) / 16 < 7 && ((v as int) / 16 == 0 ==> (v as int) % 16 == 0)
  }

  /** Packs a type and an amount; a Nothing type always gets amount 0. */
  function Pack(t: ResourceType, amount: nat): (v: uint8)
    ensures IsValidValue(v)
    ensures TypeOfCode((v as int) / 16) == t
    ensures (v as int) % 16 == if t == Nothing then 0 else StoredAmount(amount)
  {
    var a := if t == Nothing then 0 else StoredAmount(amount);
    (TypeCode(t) * 16 + a) as uint8
  }

  /** Reading a byte back validates it: an out-of-range type or a Nothing
      type with an amount decodes to the empty value 0. */
  function Validate(v: uint8): (w: uint8)
    ensures IsValidValue(w)
    ensures IsValidValue(v) ==> w == v
    ensures !IsValidValue(v) ==> w == 0
  {
    if IsValidValue(v) then v else 0
  }

  function TypeOfValue(v: uint8): ResourceType
    requires IsValidValue(v)
  {
    TypeOfCode((v as int) / 16)
  }

  function AmountOfValue(v: uint8): nat {
    (v as int) % 16
  }

  /** Converting a packed resource to its byte and back keeps its type, and
      keeps any amount below 16 (a Nothing resource always has amount 0). */
  lemma {:induction false} PackRoundTrip(t: ResourceType, amount: nat)
    requires amount < 16
    ensures Validate(Pack(t, amount)) == Pack(t, amount)
    ensures TypeOfValue(Validate(Pack(t, amount))) == t
    ensures AmountOfValue(Validate(Pack(t, amount))) == if t == Nothing then 0 else amount
  {
  }

  /** Every valid byte is the packing of its own type and amount, so the
      byte conversion loses nothing. */
  lemma {:induction false} ValidValueIsPacked(v: uint8)
    requires IsValidValue(v)
    ensures Pack(TypeOfValue(v), AmountOfValue(v)) == v
  {
    var t := TypeOfValue(v);
    assert TypeCode(t) == (v as int) / 16;
  }

  /** The out-of-range byte 0xFF decodes to Nothing with amount 0. */
  lemma OutOfRangeByteIsEmpty()
    ensures Validate(0xFF) == 0
    ensures TypeOfValue(Validate(0xFF)) == Nothing && AmountOfValue(Validate(0xFF)) == 0
  {
  }

  /** A resource as a mutable value: one byte that the setters rewrite. */
  class Resource {
    var value: uint8

    ghost predicate Valid()
      reads this
    {
      IsValidValue(value)
    }

    /** The default resource is Nothing with amount 0. */
    constructor Default()
      ensures Valid() && GetType() == Nothing && GetAmount() == 0
    {
      value := 0;
    }

    constructor (t: ResourceType, amount: nat)
      ensures Valid() && value == Pack(t, amount)
      ensures GetType() == t
      ensures GetAmount() == if t == Nothing then 0 else StoredAmount(amount)
    {
      value := Pack(t, amount);
    }

    /** Construction from a raw byte validates it. */
    constructor FromValue(v: uint8)
      ensures Valid() && value == Validate(v)
    {
      value := Validate(v);
    }

    function GetValue(): uint8
      reads this
    {
      value
    }

    function GetType(): (t: ResourceType)
      reads this
      requires Valid()
      ensures t == Nothing ==> GetAmount() == 0
    {
      TypeOfValue(value)
    }

    function GetAmount(): (a: nat)
      reads this
      ensures a < 16
    {
      AmountOfValue(value)
    }

    /** has(t): the resource is of type t and some of it is left; never true
        for Nothing. */
    function Has(t: ResourceType): (b: bool)
      reads this
      requires Valid()
      ensures b <==> GetType() == t && t != Nothing && GetAmount() > 0
    {
      GetType() == t && GetAmount() > 0
    }

    /** Changing the type keeps the amount, except that Nothing zeroes it. */
    method SetType(t: ResourceType)
      requires Valid()
      modifies this
      ensures Valid() && GetType() == t
      ensures GetAmount() == if t == Nothing then 0 else old(GetAmount())
    {
      value := Pack(t, AmountOfValue(value));
    }

    /** Changing the amount keeps the type; a Nothing resource stays at 0
        and an amount above 15 is cut to its low four bits. */
    method SetAmount(amount: nat)
      requires Valid()
      modifies this
      ensures Valid() && GetType() == old(GetType())
      ensures GetAmount() == if GetType() == Nothing then 0 else StoredAmount(amount)
    {
      value := Pack(TypeOfValue(value), amount);
    }
  }

  /** The sequence of calls the game's value tests make on one resource;
      the two resources end as the tests' last checks expect. */
  method ResourceValuesScenario() returns (res: Resource, res2: Resource)
    ensures res.Valid() && res.GetType() == Nothing && res.GetAmount() == 0
    ensures res2.Valid() && res2.GetType() == Iron && res2.GetAmount() < 17
  {
    var empty := new Resource.Default();
    assert empty.GetType() == Nothing && empty.GetAmount() == 0;
    var nothing5 := new Resource(Nothing, 5);
    assert nothing5.GetType() == Nothing && nothing5.GetAmount() == 0;

    res := new Resource(Gold, 10);
    assert res.GetType() == Gold && res.GetAmount() == 10;
    res.SetType(Iron);
    assert res.GetType() == Iron && res.GetAmount() == 10;
    res.SetAmount(5);
    assert res.GetType() == Iron && res.GetAmount() == 5;
    res2 := new Resource.FromValue(res.GetValue());
    assert res2.GetType() == Iron && res2.GetAmount() == 5;
    res2.SetAmount(0);
    assert res2.GetType() == Iron && res2.GetAmount() == 0;
    assert res.Has(Iron) && !res.Has(Gold) && !res2.Has(Iron);
    assert !res.Has(Nothing) && !res2.Has(Nothing);

    res.SetType(Nothing);
    assert res.GetType() == Nothing && res.GetAmount() == 0;
    res.SetAmount(10);
    assert res.GetType() == Nothing && res.GetAmount() == 0;
    assert !res.Has(Iron) && !res.Has(Nothing);

    res2.SetAmount(15);
    assert res2.GetType() == Iron && res2.GetAmount() == 15;
    res2.SetAmount(17);
    assert res2.GetType() == Iron && res2.GetAmount() < 17;
  }
}
