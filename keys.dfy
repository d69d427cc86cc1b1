/**
 * Key naming: the index lives under the literal key "city_keys" and each
 * record under "city_" followed by its id.  A fresh id is the decimal
 * millisecond clock, a '-', and a random base-36 suffix.
 */
module Keys {

  const INDEX_KEY: string := "city_keys"
  const RECORD_PREFIX: string := "city_"

  function RecordKey(id: string): (k: string)
    ensures |k| == |RECORD_PREFIX| + |id| && k[|RECORD_PREFIX|..] == id
  {
    RECORD_PREFIX + id
  }

  /** Distinct ids are stored under distinct keys. */
  lemma RecordKeyInjective(a: string, b: string)
    ensures RecordKey(a) == RecordKey(b) <==> a == b
  {
    if RecordKey(a) == RecordKey(b) {
      assert a == RecordKey(a)[|RECORD_PREFIX|..];
    }
  }

  /** The only id whose record key collides with the index key is "keys". */
  lemma RecordKeyIsIndexKey(id: string)
    ensures RecordKey(id) == INDEX_KEY <==> id == "keys"
  {
    if RecordKey(id) == INDEX_KEY {
      assert id == INDEX_KEY[|RECORD_PREFIX|..];
    }
  }

  function Digit(d: nat): (c: char)
    requires d < 10
    ensures '0' <= c <= '9' && c as int - '0' as int == d
  {
    ('0' as int + d) as char
  }

  /** The decimal text of a non-negative integer, as a template literal prints it. */
  function Decimal(n: nat): (s: string)
    ensures 0 < |s|
    ensures forall i :: 0 <= i < |s| ==> '0' <= s[i] <= '9'
  {
    if n < 10 then [Digit(n)] else Decimal(n / 10) + [Digit(n % 10)]
  }

  /** The id `submitCity` generates from the clock reading and the random suffix. */
  function CityId(millis: nat, suffix: string): (id: string)
    ensures '-' in id
    ensures RecordKey(id) != INDEX_KEY
  {
    var id := Decimal(millis) + "-" + suffix;
    assert id[|Decimal(millis)|] == '-';
    RecordKeyIsIndexKey(id);
    assert '-' !in "keys";
    id
  }
}
