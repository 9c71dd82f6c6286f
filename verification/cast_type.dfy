/**
 * The closed set of built-in Eloquent cast keywords (`CastTypeEnum`), used by
 * validation as the list of supported cast types.
 */
module CastType {
  import opened Wrappers

  datatype Kind =
    // primitives
    | Array | Boolean | Collection | Date | Datetime | ImmutableDate | ImmutableDatetime
    | Double | Float | Integer | Object | Real | String | Timestamp
    // parameterizables
    | Decimal | Encrypted | EncryptedArray | EncryptedJson | EncryptedCollection | EncryptedObject
    // aliases
    | Int | Bool | Json | CustomDatetime | ImmutableCustomDatetime
    // castable class names
    | AsStringableClass | AsArrayObjectClass | AsCollectionClass
    | AsEncryptedArrayObjectClass | AsEncryptedCollectionClass

  datatype Group = Primitive | Parameterizable | Alias | Castable

  const AllKinds: seq<Kind> := [
    Array, Boolean, Collection, Date, Datetime, ImmutableDate, ImmutableDatetime,
    Double, Float, Integer, Object, Real, String, Timestamp,
    Decimal, Encrypted, EncryptedArray, EncryptedJson, EncryptedCollection, EncryptedObject,
    Int, Bool, Json, CustomDatetime, ImmutableCustomDatetime,
    AsStringableClass, AsArrayObjectClass, AsCollectionClass,
    AsEncryptedArrayObjectClass, AsEncryptedCollectionClass
  ]

  /** Which of the four documented groups a keyword belongs to. */
  function GroupOf(k: Kind): Group {
    match k
    case Array | Boolean | Collection | Date | Datetime | ImmutableDate | ImmutableDatetime
      | Double | Float | Integer | Object | Real | String | Timestamp => Primitive
    case Decimal | Encrypted | EncryptedArray | EncryptedJson | EncryptedCollection | EncryptedObject =>
      Parameterizable
    case Int | Bool | Json | CustomDatetime | ImmutableCustomDatetime => Alias
    case AsStringableClass | AsArrayObjectClass | AsCollectionClass
      | AsEncryptedArrayObjectClass | AsEncryptedCollectionClass => Castable
  }

  /** Namespace of Laravel's castable classes; a class keyword's value is its fully qualified name. */
  const CastsNamespace: string := "Illuminate\\Database\\Eloquent\\Casts\\"

  /** The backing string of a keyword (`$case->value`). */
  function Value(k: Kind): string {
    match k
    case Array => "array"
    case Boolean => "boolean"
    case Collection => "collection"
    case Date => "date"
    case Datetime => "datetime"
    case ImmutableDate => "immutable_date"
    case ImmutableDatetime => "immutable_datetime"
    case Double => "double"
    case Float => "float"
    case Integer => "integer"
    case Object => "object"
    case Real => "real"
    case String => "string"
    case Timestamp => "timestamp"
    case Decimal => "decimal"
    case Encrypted => "encrypted"
    case EncryptedArray => "encrypted:array"
    case EncryptedJson => "encrypted:json"
    case EncryptedCollection => "encrypted:collection"
    case EncryptedObject => "encrypted:object"
    case Int => "int"
    case Bool => "bool"
    case Json => "json"
    case CustomDatetime => "custom_datetime"
    case ImmutableCustomDatetime => "immutable_custom_datetime"
    case AsStringableClass => CastsNamespace + "AsStringable"
    case AsArrayObjectClass => CastsNamespace + "AsArrayObject"
    case AsCollectionClass => CastsNamespace + "AsCollection"
    case AsEncryptedArrayObjectClass => CastsNamespace + "AsEncryptedArrayObject"
    case AsEncryptedCollectionClass => CastsNamespace + "AsEncryptedCollection"
  }

  /** `CastTypeEnum::values()`, in declaration order. */
  function Values(): (vs: seq<string>)
    ensures |vs| == |AllKinds|
    ensures forall i :: 0 <= i < |AllKinds| ==> vs[i] == Value(AllKinds[i])
  {
    seq(|AllKinds|, i requires 0 <= i < |AllKinds| => Value(AllKinds[i]))
  }

  /** `in_array($s, CastTypeEnum::values(), true)`. */
  predicate IsSupported(s: string) {
    s in Values()
  }

  /**
   * `CastTypeEnum::tryFrom`: the keyword whose value is `s`, if any. A class
   * keyword is looked up by the part of `s` after the castable namespace,
   * which no plain keyword starts with.
   */
  function TryFrom(s: string): Option<Kind> {
    if CastsNamespace <= s then TryFromClassName(s[|CastsNamespace|..])
    else if s == "array" then Some(Array)
    else if s == "boolean" then Some(Boolean)
    else if s == "collection" then Some(Collection)
    else if s == "date" then Some(Date)
    else if s == "datetime" then Some(Datetime)
    else if s == "immutable_date" then Some(ImmutableDate)
    else if s == "immutable_datetime" then Some(ImmutableDatetime)
    else if s == "double" then Some(Double)
    else if s == "float" then Some(Float)
    else if s == "integer" then Some(Integer)
    else if s == "object" then Some(Object)
    else if s == "real" then Some(Real)
    else if s == "string" then Some(String)
    else if s == "timestamp" then Some(Timestamp)
    else if s == "decimal" then Some(Decimal)
    else if s == "encrypted" then Some(Encrypted)
    else if s == "encrypted:array" then Some(EncryptedArray)
    else if s == "encrypted:json" then Some(EncryptedJson)
    else if s == "encrypted:collection" then Some(EncryptedCollection)
    else if s == "encrypted:object" then Some(EncryptedObject)
    else if s == "int" then Some(Int)
    else if s == "bool" then Some(Bool)
    else if s == "json" then Some(Json)
    else if s == "custom_datetime" then Some(CustomDatetime)
    else if s == "immutable_custom_datetime" then Some(ImmutableCustomDatetime)
    else None
  }

  /** The class keyword with the given short class name, if any. */
  function TryFromClassName(name: string): Option<Kind> {
    if name == "AsStringable" then Some(AsStringableClass)
    else if name == "AsArrayObject" then Some(AsArrayObjectClass)
    else if name == "AsCollection" then Some(AsCollectionClass)
    else if name == "AsEncryptedArrayObject" then Some(AsEncryptedArrayObjectClass)
    else if name == "AsEncryptedCollection" then Some(AsEncryptedCollectionClass)
    else None
  }

  /** Reading a keyword's value back yields the keyword, so the 30 values are distinct. */
  lemma TryFromValue(k: Kind)
    ensures TryFrom(Value(k)) == Some(k)
  {
    match GroupOf(k)
    case Primitive => TryFromPrimitive(k);
    case Parameterizable => TryFromParameterizable(k);
    case Alias => TryFromAlias(k);
    case Castable => TryFromCastable(k);
  }

  lemma TryFromPrimitive(k: Kind)
    requires GroupOf(k) == Primitive
    ensures TryFrom(Value(k)) == Some(k)
  {
    match k
    case Array => TryFromArray();
    case Boolean => TryFromBoolean();
    case Collection => TryFromCollection();
    case Date => TryFromDate();
    case Datetime => TryFromDatetime();
    case ImmutableDate => TryFromImmutableDate();
    case ImmutableDatetime => TryFromImmutableDatetime();
    case Double => TryFromDouble();
    case Float => TryFromFloat();
    case Integer => TryFromInteger();
    case Object => TryFromObject();
    case Real => TryFromReal();
    case String => TryFromString();
    case Timestamp => TryFromTimestamp();
    case _ => assert false;
  }

  lemma TryFromArray()
    ensures TryFrom(Value(Array)) == Some(Array)
  {
  }

  lemma TryFromBoolean()
    ensures TryFrom(Value(Boolean)) == Some(Boolean)
  {
  }

  lemma TryFromCollection()
    ensures TryFrom(Value(Collection)) == Some(Collection)
  {
  }

  lemma TryFromDate()
    ensures TryFrom(Value(Date)) == Some(Date)
  {
  }

  lemma TryFromDatetime()
    ensures TryFrom(Value(Datetime)) == Some(Datetime)
  {
  }

  lemma TryFromImmutableDate()
    ensures TryFrom(Value(ImmutableDate)) == Some(ImmutableDate)
  {
  }

  lemma TryFromImmutableDatetime()
    ensures TryFrom(Value(ImmutableDatetime)) == Some(ImmutableDatetime)
  {
  }

  lemma TryFromDouble()
    ensures TryFrom(Value(Double)) == Some(Double)
  {
  }

  lemma TryFromFloat()
    ensures TryFrom(Value(Float)) == Some(Float)
  {
  }

  lemma TryFromInteger()
    ensures TryFrom(Value(Integer)) == Some(Integer)
  {
  }

  lemma TryFromObject()
    ensures TryFrom(Value(Object)) == Some(Object)
  {
  }

  lemma TryFromReal()
    ensures TryFrom(Value(Real)) == Some(Real)
  {
  }

  lemma TryFromString()
    ensures TryFrom(Value(String)) == Some(String)
  {
  }

  lemma TryFromTimestamp()
    ensures TryFrom(Value(Timestamp)) == Some(Timestamp)
  {
  }

  lemma TryFromParameterizable(k: Kind)
    requires GroupOf(k) == Parameterizable
    ensures TryFrom(Value(k)) == Some(k)
  {
    match k
    case Decimal => TryFromDecimal();
    case Encrypted => TryFromEncrypted();
    case EncryptedArray => TryFromEncryptedArray();
    case EncryptedJson => TryFromEncryptedJson();
    case EncryptedCollection => TryFromEncryptedCollection();
    case EncryptedObject => TryFromEncryptedObject();
    case _ => assert false;
  }

  lemma TryFromDecimal()
    ensures TryFrom(Value(Decimal)) == Some(Decimal)
  {
  }

  lemma TryFromEncrypted()
    ensures TryFrom(Value(Encrypted)) == Some(Encrypted)
  {
  }

  lemma TryFromEncryptedArray()
    ensures TryFrom(Value(EncryptedArray)) == Some(EncryptedArray)
  {
  }

  lemma TryFromEncryptedJson()
    ensures TryFrom(Value(EncryptedJson)) == Some(EncryptedJson)
  {
  }

  lemma TryFromEncryptedCollection()
    ensures TryFrom(Value(EncryptedCollection)) == Some(EncryptedCollection)
  {
  }

  lemma TryFromEncryptedObject()
    ensures TryFrom(Value(EncryptedObject)) == Some(EncryptedObject)
  {
  }

  lemma TryFromAlias(k: Kind)
    requires GroupOf(k) == Alias
    ensures TryFrom(Value(k)) == Some(k)
  {
    match k
    case Int => TryFromInt();
    case Bool => TryFromBool();
    case Json => TryFromJson();
    case CustomDatetime => TryFromCustomDatetime();
    case ImmutableCustomDatetime => TryFromImmutableCustomDatetime();
    case _ => assert false;
  }

  lemma TryFromInt()
    ensures TryFrom(Value(Int)) == Some(Int)
  {
  }

  lemma TryFromBool()
    ensures TryFrom(Value(Bool)) == Some(Bool)
  {
  }

  lemma TryFromJson()
    ensures TryFrom(Value(Json)) == Some(Json)
  {
  }

  lemma TryFromCustomDatetime()
    ensures TryFrom(Value(CustomDatetime)) == Some(CustomDatetime)
  {
  }

  lemma TryFromImmutableCustomDatetime()
    ensures TryFrom(Value(ImmutableCustomDatetime)) == Some(ImmutableCustomDatetime)
  {
  }

  lemma TryFromCastable(k: Kind)
    requires GroupOf(k) == Castable
    ensures TryFrom(Value(k)) == Some(k)
  {
    match k
    case AsStringableClass => TryFromAsStringableClass();
    case AsArrayObjectClass => TryFromAsArrayObjectClass();
    case AsCollectionClass => TryFromAsCollectionClass();
    case AsEncryptedArrayObjectClass => TryFromAsEncryptedArrayObjectClass();
    case AsEncryptedCollectionClass => TryFromAsEncryptedCollectionClass();
    case _ => assert false;
  }

  lemma TryFromAsStringableClass()
    ensures TryFrom(Value(AsStringableClass)) == Some(AsStringableClass)
  {
  }

  lemma TryFromAsArrayObjectClass()
    ensures TryFrom(Value(AsArrayObjectClass)) == Some(AsArrayObjectClass)
  {
  }

  lemma TryFromAsCollectionClass()
    ensures TryFrom(Value(AsCollectionClass)) == Some(AsCollectionClass)
  {
  }

  lemma TryFromAsEncryptedArrayObjectClass()
    ensures TryFrom(Value(AsEncryptedArrayObjectClass)) == Some(AsEncryptedArrayObjectClass)
  {
  }

  lemma TryFromAsEncryptedCollectionClass()
    ensures TryFrom(Value(AsEncryptedCollectionClass)) == Some(AsEncryptedCollectionClass)
  {
  }

  /** Position of a keyword in `AllKinds`. */
  function Index(k: Kind): (i: nat)
    ensures i < |AllKinds| && AllKinds[i] == k
  {
    match k
    case Array => 0
    case Boolean => 1
    case Collection => 2
    case Date => 3
    case Datetime => 4
    case ImmutableDate => 5
    case ImmutableDatetime => 6
    case Double => 7
    case Float => 8
    case Integer => 9
    case Object => 10
    case Real => 11
    case String => 12
    case Timestamp => 13
    case Decimal => 14
    case Encrypted => 15
    case EncryptedArray => 16
    case EncryptedJson => 17
    case EncryptedCollection => 18
    case EncryptedObject => 19
    case Int => 20
    case Bool => 21
    case Json => 22
    case CustomDatetime => 23
    case ImmutableCustomDatetime => 24
    case AsStringableClass => 25
    case AsArrayObjectClass => 26
    case AsCollectionClass => 27
    case AsEncryptedArrayObjectClass => 28
    case AsEncryptedCollectionClass => 29
  }

  lemma IndexAt(i: nat)
    requires i < |AllKinds|
    ensures Index(AllKinds[i]) == i
  {
    if i < 4 {
      IndexAt0To4(i);
    } else if i < 8 {
      IndexAt4To8(i);
    } else if i < 12 {
      IndexAt8To12(i);
    } else if i < 16 {
      IndexAt12To16(i);
    } else if i < 20 {
      IndexAt16To20(i);
    } else if i < 24 {
      IndexAt20To24(i);
    } else if i < 28 {
      IndexAt24To28(i);
    } else if i < 30 {
      IndexAt28To30(i);
    }
  }

  lemma IndexAt0To4(i: nat)
    requires 0 <= i < 4
    ensures Index(AllKinds[i]) == i
  {
    if i == 0 {
      assert AllKinds[0] == Array;
    } else if i == 1 {
      assert AllKinds[1] == Boolean;
    } else if i == 2 {
      assert AllKinds[2] == Collection;
    } else if i == 3 {
      assert AllKinds[3] == Date;
    }
  }

  lemma IndexAt4To8(i: nat)
    requires 4 <= i < 8
    ensures Index(AllKinds[i]) == i
  {
    if i == 4 {
      assert AllKinds[4] == Datetime;
    } else if i == 5 {
      assert AllKinds[5] == ImmutableDate;
    } else if i == 6 {
      assert AllKinds[6] == ImmutableDatetime;
    } else if i == 7 {
      assert AllKinds[7] == Double;
    }
  }

  lemma IndexAt8To12(i: nat)
    requires 8 <= i < 12
    ensures Index(AllKinds[i]) == i
  {
    if i == 8 {
      assert AllKinds[8] == Float;
    } else if i == 9 {
      assert AllKinds[9] == Integer;
    } else if i == 10 {
      assert AllKinds[10] == Object;
    } else if i == 11 {
      assert AllKinds[11] == Real;
    }
  }

  lemma IndexAt12To16(i: nat)
    requires 12 <= i < 16
    ensures Index(AllKinds[i]) == i
  {
    if i == 12 {
      assert AllKinds[12] == String;
    } else if i == 13 {
      assert AllKinds[13] == Timestamp;
    } else if i == 14 {
      assert AllKinds[14] == Decimal;
    } else if i == 15 {
      assert AllKinds[15] == Encrypted;
    }
  }

  lemma IndexAt16To20(i: nat)
    requires 16 <= i < 20
    ensures Index(AllKinds[i]) == i
  {
    if i == 16 {
      assert AllKinds[16] == EncryptedArray;
    } else if i == 17 {
      assert AllKinds[17] == EncryptedJson;
    } else if i == 18 {
      assert AllKinds[18] == EncryptedCollection;
    } else if i == 19 {
      assert AllKinds[19] == EncryptedObject;
    }
  }

  lemma IndexAt20To24(i: nat)
    requires 20 <= i < 24
    ensures Index(AllKinds[i]) == i
  {
    if i == 20 {
      assert AllKinds[20] == Int;
    } else if i == 21 {
      assert AllKinds[21] == Bool;
    } else if i == 22 {
      assert AllKinds[22] == Json;
    } else if i == 23 {
      assert AllKinds[23] == CustomDatetime;
    }
  }

  lemma IndexAt24To28(i: nat)
    requires 24 <= i < 28
    ensures Index(AllKinds[i]) == i
  {
    if i == 24 {
      assert AllKinds[24] == ImmutableCustomDatetime;
    } else if i == 25 {
      assert AllKinds[25] == AsStringableClass;
    } else if i == 26 {
      assert AllKinds[26] == AsArrayObjectClass;
    } else if i == 27 {
      assert AllKinds[27] == AsCollectionClass;
    }
  }

  lemma IndexAt28To30(i: nat)
    requires 28 <= i < 30
    ensures Index(AllKinds[i]) == i
  {
    if i == 28 {
      assert AllKinds[28] == AsEncryptedArrayObjectClass;
    } else if i == 29 {
      assert AllKinds[29] == AsEncryptedCollectionClass;
    }
  }

  /** Every keyword's value is in the supported list. */
  lemma ValueSupported(k: Kind)
    ensures IsSupported(Value(k))
  {
    assert Values()[Index(k)] == Value(k);
  }

  /** A supported string is the value of the keyword `tryFrom` finds for it. */
  lemma SupportedHasKind(s: string)
    ensures IsSupported(s) ==> TryFrom(s).Some? && Value(TryFrom(s).value) == s
  {
    if IsSupported(s) {
      var i :| 0 <= i < |AllKinds| && Values()[i] == s;
      TryFromValue(AllKinds[i]);
    }
  }

  /** No two keywords share a value. */
  lemma ValuesDistinct(i: nat, j: nat)
    requires i < j < |AllKinds|
    ensures Values()[i] != Values()[j]
  {
    IndexAt(i);
    IndexAt(j);
    TryFromValue(AllKinds[i]);
    TryFromValue(AllKinds[j]);
  }

  /** The bare keyword `decimal` and the encrypted forms are supported, as whole strings. */
  lemma ParameterizablesSupported()
    ensures IsSupported("decimal")
    ensures IsSupported("encrypted") && IsSupported("encrypted:array")
  {
    ValueSupported(Decimal);
    ValueSupported(Encrypted);
    ValueSupported(EncryptedArray);
  }

  /** The aliases `int`, `bool` and `json` are supported. */
  lemma AliasesSupported()
    ensures IsSupported("int") && IsSupported("bool") && IsSupported("json")
  {
    assert Values()[Index(Int)] == "int";
    assert Values()[Index(Bool)] == "bool";
    assert Values()[Index(Json)] == "json";
  }

  /** Membership is of whole strings: a parameterised `decimal:4` is not supported, nor is `nope!`. */
  lemma UnsupportedExamples()
    ensures !IsSupported("decimal:4")
    ensures !IsSupported("nope!")
  {
    SupportedHasKind("decimal:4");
    SupportedHasKind("nope!");
  }
}
