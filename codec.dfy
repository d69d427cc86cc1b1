/**
 * The byte codec for the two kinds of stored values: a city record and the
 * index (a list of ids).
 *
 * The application stores UTF-8 JSON.  What the registry relies on is only
 * that encoding is total and never yields the empty byte string (the empty
 * value means "absent" to the store), that decoding is total (a malformed
 * value is a `None`, never a fault), and that decoding undoes encoding.  This
 * module gives one concrete codec with exactly those properties, proved
 * below: unsigned integers as base-128 groups with a continuation bit,
 * signed integers as a sign byte and a magnitude, characters as three bytes
 * of their code point, strings and lists with a length prefix, and a record
 * as its seven fields in the order the application writes them.
 */
module Codec {
  import opened Wrappers
  import opened CityData

  type byte = x: int | 0 <= x < 256

  /** `rest` is what is left of `s` after a decoder consumed a prefix of it. */
  predicate Suffix(rest: seq<byte>, s: seq<byte>) {
    |rest| <= |s| && rest == s[|s| - |rest|..]
  }

  // ----- unsigned integers -----

  function EncodeNat(n: nat): (r: seq<byte>)
    ensures 0 < |r|
  {
    if n < 128 then [n] else [128 + n % 128] + EncodeNat(n / 128)
  }

  function DecodeNat(s: seq<byte>): (r: Option<(nat, seq<byte>)>)
    ensures r.Some? ==> |r.value.1| < |s| && Suffix(r.value.1, s)
  {
    if |s| == 0 then None
    else if s[0] < 128 then Some((s[0], s[1..]))
    else
      match DecodeNat(s[1..])
      case None => None
      case Some((m, rest)) => Some((s[0] - 128 + 128 * m, rest))
  }

  lemma {:induction false} DecodeEncodeNat(n: nat, rest: seq<byte>)
    ensures DecodeNat(EncodeNat(n) + rest) == Some((n, rest))
  {
    if n >= 128 {
      var s := EncodeNat(n) + rest;
      assert s == [128 + n % 128] + (EncodeNat(n / 128) + rest);
      assert s[1..] == EncodeNat(n / 128) + rest;
      DecodeEncodeNat(n / 128, rest);
    }
  }

  // ----- signed integers -----

  function EncodeInt(i: int): (r: seq<byte>)
    ensures 0 < |r|
  {
    if i >= 0 then [0] + EncodeNat(i) else [1] + EncodeNat(-i - 1)
  }

  function DecodeInt(s: seq<byte>): (r: Option<(int, seq<byte>)>)
    ensures r.Some? ==> |r.value.1| < |s| && Suffix(r.value.1, s)
  {
    if |s| == 0 || 1 < s[0] then None
    else
      var p :- DecodeNat(s[1..]);
      var m: int := p.0;
      var i := if s[0] == 0 then m else -m - 1;
      Some((i, p.1))
  }

  lemma DecodeEncodeInt(i: int, rest: seq<byte>)
    ensures DecodeInt(EncodeInt(i) + rest) == Some((i, rest))
  {
    var m: nat := if i >= 0 then i else -i - 1;
    var s := EncodeInt(i) + rest;
    assert s[1..] == EncodeNat(m) + rest;
    DecodeEncodeNat(m, rest);
  }

  // ----- characters and strings -----

  /** A Unicode scalar value: a code point that is not a surrogate. */
  predicate IsScalar(n: int) {
    (0 <= n < 0xD800) || (0xE000 <= n < 0x11_0000)
  }

  function EncodeChar(c: char): (r: seq<byte>)
    ensures |r| == 3
  {
    var n := c as int;
    [n / 0x1_0000, n % 0x1_0000 / 0x100, n % 0x1_0000 % 0x100]
  }

  function DecodeChar(b0: byte, b1: byte, b2: byte): Option<char> {
    var n := b0 * 0x1_0000 + b1 * 0x100 + b2;
    if IsScalar(n) then Some(n as char) else None
  }

  lemma DecodeEncodeChar(c: char)
    ensures var e := EncodeChar(c); DecodeChar(e[0], e[1], e[2]) == Some(c)
  {
    var n := c as int;
    assert n == n / 0x1_0000 * 0x1_0000 + n % 0x1_0000;
    assert n % 0x1_0000 == n % 0x1_0000 / 0x100 * 0x100 + n % 0x1_0000 % 0x100;
  }

  function EncodeChars(s: string): (r: seq<byte>)
    ensures |r| == 3 * |s|
  {
    if s == [] then [] else EncodeChar(s[0]) + EncodeChars(s[1..])
  }

  /** Decodes `count` characters from the front of `s`. */
  function DecodeChars(count: nat, s: seq<byte>): (r: Option<(string, seq<byte>)>)
    ensures r.Some? ==> |r.value.0| == count && Suffix(r.value.1, s)
  {
    if count == 0 then Some(([], s))
    else if |s| < 3 then None
    else
      var c :- DecodeChar(s[0], s[1], s[2]);
      var p :- DecodeChars(count - 1, s[3..]);
      Some(([c] + p.0, p.1))
  }

  lemma {:induction false} DecodeEncodeChars(x: string, rest: seq<byte>)
    ensures DecodeChars(|x|, EncodeChars(x) + rest) == Some((x, rest))
  {
    if x != [] {
      var s := EncodeChars(x) + rest;
      var e := EncodeChar(x[0]);
      assert s == e + (EncodeChars(x[1..]) + rest);
      assert s[0] == e[0] && s[1] == e[1] && s[2] == e[2];
      assert s[3..] == EncodeChars(x[1..]) + rest;
      DecodeEncodeChar(x[0]);
      DecodeEncodeChars(x[1..], rest);
      assert [x[0]] + x[1..] == x;
    }
  }

  function EncodeString(x: string): (r: seq<byte>)
    ensures 0 < |r|
  {
    EncodeNat(|x|) + EncodeChars(x)
  }

  function DecodeString(s: seq<byte>): (r: Option<(string, seq<byte>)>)
    ensures r.Some? ==> |r.value.1| < |s| && Suffix(r.value.1, s)
  {
    var p :- DecodeNat(s);
    DecodeChars(p.0, p.1)
  }

  lemma DecodeEncodeString(x: string, rest: seq<byte>)
    ensures DecodeString(EncodeString(x) + rest) == Some((x, rest))
  {
    assert EncodeString(x) + rest == EncodeNat(|x|) + (EncodeChars(x) + rest);
    DecodeEncodeNat(|x|, EncodeChars(x) + rest);
    DecodeEncodeChars(x, rest);
  }

  // ----- the index: a list of ids -----

  function EncodeStrings(xs: seq<string>): seq<byte> {
    if xs == [] then [] else EncodeString(xs[0]) + EncodeStrings(xs[1..])
  }

  /** Decodes `count` strings from the front of `s`. */
  function DecodeStrings(count: nat, s: seq<byte>): (r: Option<(seq<string>, seq<byte>)>)
    ensures r.Some? ==> |r.value.0| == count && Suffix(r.value.1, s)
  {
    if count == 0 then Some(([], s))
    else
      var p :- DecodeString(s);
      var q :- DecodeStrings(count - 1, p.1);
      Some(([p.0] + q.0, q.1))
  }

  lemma {:induction false} DecodeEncodeStrings(xs: seq<string>, rest: seq<byte>)
    ensures DecodeStrings(|xs|, EncodeStrings(xs) + rest) == Some((xs, rest))
  {
    if xs != [] {
      assert EncodeStrings(xs) + rest == EncodeString(xs[0]) + (EncodeStrings(xs[1..]) + rest);
      DecodeEncodeString(xs[0], EncodeStrings(xs[1..]) + rest);
      DecodeEncodeStrings(xs[1..], rest);
      assert [xs[0]] + xs[1..] == xs;
    }
  }

  /** The stored form of the index. */
  function EncodeKeys(ids: seq<string>): (r: seq<byte>)
    ensures 0 < |r|
  {
    EncodeNat(|ids|) + EncodeStrings(ids)
  }

  /** Parses a stored index; anything but a complete list is malformed. */
  function DecodeKeys(s: seq<byte>): Option<seq<string>> {
    var p :- DecodeNat(s);
    var q :- DecodeStrings(p.0, p.1);
    if |q.1| == 0 then Some(q.0) else None
  }

  lemma KeysRoundTrip(ids: seq<string>)
    ensures DecodeKeys(EncodeKeys(ids)) == Some(ids)
  {
    var s := EncodeKeys(ids);
    assert s == EncodeNat(|ids|) + (EncodeStrings(ids) + []);
    DecodeEncodeNat(|ids|, EncodeStrings(ids) + []);
    DecodeEncodeStrings(ids, []);
  }

  // ----- a city record -----

  /** The stored form of a record: its fields in the order the application writes them. */
  function EncodeRecord(r: Record): (b: seq<byte>)
    ensures 0 < |b|
  {
    EncodeString(r.name) + (EncodeInt(r.population) + (EncodeInt(r.satisfaction) +
      (EncodeInt(r.buildings) + (EncodeInt(r.timestamp) + (EncodeString(r.owner) +
      (EncodeString(r.encryptedData) + []))))))
  }

  /** Parses a stored record; a truncated, garbled or over-long value is malformed. */
  function DecodeRecord(s: seq<byte>): Option<Record> {
    var name :- DecodeString(s);
    var population :- DecodeInt(name.1);
    var satisfaction :- DecodeInt(population.1);
    var buildings :- DecodeInt(satisfaction.1);
    var timestamp :- DecodeInt(buildings.1);
    var owner :- DecodeString(timestamp.1);
    var encryptedData :- DecodeString(owner.1);
    if |encryptedData.1| == 0 then
      Some(Record(name.0, population.0, satisfaction.0, buildings.0, timestamp.0, owner.0, encryptedData.0))
    else None
  }

  lemma RecordRoundTrip(r: Record)
    ensures DecodeRecord(EncodeRecord(r)) == Some(r)
  {
    var t6 := EncodeString(r.encryptedData) + [];
    var t5 := EncodeString(r.owner) + t6;
    var t4 := EncodeInt(r.timestamp) + t5;
    var t3 := EncodeInt(r.buildings) + t4;
    var t2 := EncodeInt(r.satisfaction) + t3;
    var t1 := EncodeInt(r.population) + t2;
    DecodeEncodeString(r.name, t1);
    DecodeEncodeInt(r.population, t2);
    DecodeEncodeInt(r.satisfaction, t3);
    DecodeEncodeInt(r.buildings, t4);
    DecodeEncodeInt(r.timestamp, t5);
    DecodeEncodeString(r.owner, t6);
    DecodeEncodeString(r.encryptedData, []);
  }
}
