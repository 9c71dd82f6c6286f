/**
 * The 24 canonical Doctrine storage types a column can carry, with the
 * string value each tag is keyed by in a types map.
 */
module DoctrineType {
  import opened Wrappers

  datatype Tag =
    | AsciiString | Bigint | Binary | Blob | Boolean
    | Date | DateImmutable | DateInterval
    | Datetime | DatetimeImmutable | Datetimetz | DatetimetzImmutable
    | Decimal | Float | Guid | Integer | Json | SimpleArray | Smallint
    | String | Text | Time | TimeImmutable | Unknown

  /** Every tag, in the order the source's dispatch lists them. */
  const AllTags: seq<Tag> := [
    AsciiString, Bigint, Binary, Blob, Boolean,
    Date, DateImmutable, DateInterval,
    Datetime, DatetimeImmutable, Datetimetz, DatetimetzImmutable,
    Decimal, Float, Guid, Integer, Json, SimpleArray, Smallint,
    String, Text, Time, TimeImmutable, Unknown
  ]

  /** The backing string of a tag (`$type->value`). */
  function Value(t: Tag): string {
    match t
    case AsciiString => "ascii_string"
    case Bigint => "bigint"
    case Binary => "binary"
    case Blob => "blob"
    case Boolean => "boolean"
    case Date => "date"
    case DateImmutable => "date_immutable"
    case DateInterval => "dateinterval"
    case Datetime => "datetime"
    case DatetimeImmutable => "datetime_immutable"
    case Datetimetz => "datetimetz"
    case DatetimetzImmutable => "datetimetz_immutable"
    case Decimal => "decimal"
    case Float => "float"
    case Guid => "guid"
    case Integer => "integer"
    case Json => "json"
    case SimpleArray => "simple_array"
    case Smallint => "smallint"
    case String => "string"
    case Text => "text"
    case Time => "time"
    case TimeImmutable => "time_immutable"
    case Unknown => "unknown"
  }

  /** `DoctrineTypeEnum::tryFrom`: the tag whose value is `s`, if any. */
  function TryFrom(s: string): Option<Tag> {
    if s == "ascii_string" then Some(AsciiString)
    else if s == "bigint" then Some(Bigint)
    else if s == "binary" then Some(Binary)
    else if s == "blob" then Some(Blob)
    else if s == "boolean" then Some(Boolean)
    else if s == "date" then Some(Date)
    else if s == "date_immutable" then Some(DateImmutable)
    else if s == "dateinterval" then Some(DateInterval)
    else if s == "datetime" then Some(Datetime)
    else if s == "datetime_immutable" then Some(DatetimeImmutable)
    else if s == "datetimetz" then Some(Datetimetz)
    else if s == "datetimetz_immutable" then Some(DatetimetzImmutable)
    else if s == "decimal" then Some(Decimal)
    else if s == "float" then Some(Float)
    else if s == "guid" then Some(Guid)
    else if s == "integer" then Some(Integer)
    else if s == "json" then Some(Json)
    else if s == "simple_array" then Some(SimpleArray)
    else if s == "smallint" then Some(Smallint)
    else if s == "string" then Some(String)
    else if s == "text" then Some(Text)
    else if s == "time" then Some(Time)
    else if s == "time_immutable" then Some(TimeImmutable)
    else if s == "unknown" then Some(Unknown)
    else None
  }

  /** Reading a tag's value back yields the tag: the values are pairwise distinct. */
  lemma TryFromValue(t: Tag)
    ensures TryFrom(Value(t)) == Some(t)
  {
    if Index(t) < 8 {
      TryFromValue0To8(t);
    } else if Index(t) < 16 {
      TryFromValue8To16(t);
    } else if Index(t) < 24 {
      TryFromValue16To24(t);
    }
  }

  lemma TryFromValue0To8(t: Tag)
    requires 0 <= Index(t) < 8
    ensures TryFrom(Value(t)) == Some(t)
  {
    match t
    case AsciiString => TryFromAsciiString();
    case Bigint => TryFromBigint();
    case Binary => TryFromBinary();
    case Blob => TryFromBlob();
    case Boolean => TryFromBoolean();
    case Date => TryFromDate();
    case DateImmutable => TryFromDateImmutable();
    case DateInterval => TryFromDateInterval();
    case _ => assert false;
  }

  lemma TryFromValue8To16(t: Tag)
    requires 8 <= Index(t) < 16
    ensures TryFrom(Value(t)) == Some(t)
  {
    match t
    case Datetime => TryFromDatetime();
    case DatetimeImmutable => TryFromDatetimeImmutable();
    case Datetimetz => TryFromDatetimetz();
    case DatetimetzImmutable => TryFromDatetimetzImmutable();
    case Decimal => TryFromDecimal();
    case Float => TryFromFloat();
    case Guid => TryFromGuid();
    case Integer => TryFromInteger();
    case _ => assert false;
  }

  lemma TryFromValue16To24(t: Tag)
    requires 16 <= Index(t) < 24
    ensures TryFrom(Value(t)) == Some(t)
  {
    match t
    case Json => TryFromJson();
    case SimpleArray => TryFromSimpleArray();
    case Smallint => TryFromSmallint();
    case String => TryFromString();
    case Text => TryFromText();
    case Time => TryFromTime();
    case TimeImmutable => TryFromTimeImmutable();
    case Unknown => TryFromUnknown();
    case _ => assert false;
  }

  lemma TryFromAsciiString()
    ensures TryFrom(Value(AsciiString)) == Some(AsciiString)
  {
  }

  lemma TryFromBigint()
    ensures TryFrom(Value(Bigint)) == Some(Bigint)
  {
  }

  lemma TryFromBinary()
    ensures TryFrom(Value(Binary)) == Some(Binary)
  {
  }

  lemma TryFromBlob()
    ensures TryFrom(Value(Blob)) == Some(Blob)
  {
  }

  lemma TryFromBoolean()
    ensures TryFrom(Value(Boolean)) == Some(Boolean)
  {
  }

  lemma TryFromDate()
    ensures TryFrom(Value(Date)) == Some(Date)
  {
  }

  lemma TryFromDateImmutable()
    ensures TryFrom(Value(DateImmutable)) == Some(DateImmutable)
  {
  }

  lemma TryFromDateInterval()
    ensures TryFrom(Value(DateInterval)) == Some(DateInterval)
  {
  }

  lemma TryFromDatetime()
    ensures TryFrom(Value(Datetime)) == Some(Datetime)
  {
  }

  lemma TryFromDatetimeImmutable()
    ensures TryFrom(Value(DatetimeImmutable)) == Some(DatetimeImmutable)
  {
  }

  lemma TryFromDatetimetz()
    ensures TryFrom(Value(Datetimetz)) == Some(Datetimetz)
  {
  }

  lemma TryFromDatetimetzImmutable()
    ensures TryFrom(Value(DatetimetzImmutable)) == Some(DatetimetzImmutable)
  {
  }

  lemma TryFromDecimal()
    ensures TryFrom(Value(Decimal)) == Some(Decimal)
  {
  }

  lemma TryFromFloat()
    ensures TryFrom(Value(Float)) == Some(Float)
  {
  }

  lemma TryFromGuid()
    ensures TryFrom(Value(Guid)) == Some(Guid)
  {
  }

  lemma TryFromInteger()
    ensures TryFrom(Value(Integer)) == Some(Integer)
  {
  }

  lemma TryFromJson()
    ensures TryFrom(Value(Json)) == Some(Json)
  {
  }

  lemma TryFromSimpleArray()
    ensures TryFrom(Value(SimpleArray)) == Some(SimpleArray)
  {
  }

  lemma TryFromSmallint()
    ensures TryFrom(Value(Smallint)) == Some(Smallint)
  {
  }

  lemma TryFromString()
    ensures TryFrom(Value(String)) == Some(String)
  {
  }

  lemma TryFromText()
    ensures TryFrom(Value(Text)) == Some(Text)
  {
  }

  lemma TryFromTime()
    ensures TryFrom(Value(Time)) == Some(Time)
  {
  }

  lemma TryFromTimeImmutable()
    ensures TryFrom(Value(TimeImmutable)) == Some(TimeImmutable)
  {
  }

  lemma TryFromUnknown()
    ensures TryFrom(Value(Unknown)) == Some(Unknown)
  {
  }

  lemma ValueInjective(t: Tag, u: Tag)
    ensures t != u ==> Value(t) != Value(u)
  {
    TryFromValue(t);
    TryFromValue(u);
  }

  /** The tag list is complete and repeats no tag. */
  lemma AllTagsComplete(t: Tag)
    ensures t in AllTags
    ensures |AllTags| == 24
  {
  }

  /** Position of a tag in `AllTags`. */
  function Index(t: Tag): (i: nat)
    ensures i < |AllTags| && AllTags[i] == t
  {
    match t
    case AsciiString => 0
    case Bigint => 1
    case Binary => 2
    case Blob => 3
    case Boolean => 4
    case Date => 5
    case DateImmutable => 6
    case DateInterval => 7
    case Datetime => 8
    case DatetimeImmutable => 9
    case Datetimetz => 10
    case DatetimetzImmutable => 11
    case Decimal => 12
    case Float => 13
    case Guid => 14
    case Integer => 15
    case Json => 16
    case SimpleArray => 17
    case Smallint => 18
    case String => 19
    case Text => 20
    case Time => 21
    case TimeImmutable => 22
    case Unknown => 23
  }

  /** The values of all tags, in order. */
  function AllValues(): (vs: seq<string>)
    ensures |vs| == |AllTags|
    ensures forall i :: 0 <= i < |AllTags| ==> vs[i] == Value(AllTags[i])
  {
    seq(|AllTags|, i requires 0 <= i < |AllTags| => Value(AllTags[i]))
  }

  /** `Index` reads a position of `AllTags` back, so no tag is listed twice. */
  lemma IndexAt(i: nat)
    requires i < |AllTags|
    ensures Index(AllTags[i]) == i
  {
    if i < 8 {
      IndexAt0To8(i);
    } else if i < 16 {
      IndexAt8To16(i);
    } else if i < 24 {
      IndexAt16To24(i);
    }
  }

  lemma IndexAt0To8(i: nat)
    requires 0 <= i < 8
    ensures Index(AllTags[i]) == i
  {
    if i == 0 {
      assert AllTags[0] == AsciiString;
    } else if i == 1 {
      assert AllTags[1] == Bigint;
    } else if i == 2 {
      assert AllTags[2] == Binary;
    } else if i == 3 {
      assert AllTags[3] == Blob;
    } else if i == 4 {
      assert AllTags[4] == Boolean;
    } else if i == 5 {
      assert AllTags[5] == Date;
    } else if i == 6 {
      assert AllTags[6] == DateImmutable;
    } else if i == 7 {
      assert AllTags[7] == DateInterval;
    }
  }

  lemma IndexAt8To16(i: nat)
    requires 8 <= i < 16
    ensures Index(AllTags[i]) == i
  {
    if i == 8 {
      assert AllTags[8] == Datetime;
    } else if i == 9 {
      assert AllTags[9] == DatetimeImmutable;
    } else if i == 10 {
      assert AllTags[10] == Datetimetz;
    } else if i == 11 {
      assert AllTags[11] == DatetimetzImmutable;
    } else if i == 12 {
      assert AllTags[12] == Decimal;
    } else if i == 13 {
      assert AllTags[13] == Float;
    } else if i == 14 {
      assert AllTags[14] == Guid;
    } else if i == 15 {
      assert AllTags[15] == Integer;
    }
  }

  lemma IndexAt16To24(i: nat)
    requires 16 <= i < 24
    ensures Index(AllTags[i]) == i
  {
    if i == 16 {
      assert AllTags[16] == Json;
    } else if i == 17 {
      assert AllTags[17] == SimpleArray;
    } else if i == 18 {
      assert AllTags[18] == Smallint;
    } else if i == 19 {
      assert AllTags[19] == String;
    } else if i == 20 {
      assert AllTags[20] == Text;
    } else if i == 21 {
      assert AllTags[21] == Time;
    } else if i == 22 {
      assert AllTags[22] == TimeImmutable;
    } else if i == 23 {
      assert AllTags[23] == Unknown;
    }
  }

  /** No two positions of `AllTags` carry the same value. */
  lemma AllValuesDistinct(i: nat, j: nat)
    requires i < j < |AllTags|
    ensures Value(AllTags[i]) != Value(AllTags[j])
  {
    IndexAt(i);
    IndexAt(j);
    ValueInjective(AllTags[i], AllTags[j]);
  }
}
