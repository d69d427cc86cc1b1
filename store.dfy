/**
 * The key/value substrate the registry is built on: it offers only an
 * availability probe, `getData(key)` and `setData(key, bytes)`.  An absent
 * key reads as the empty byte string.
 *
 * A call into the substrate can raise (a rejected transaction, a dropped
 * connection).  Which calls raise is not something the registry decides, so
 * it is a parameter: `faults` is the set of keys whose substrate calls raise
 * during the operation at hand.  The ghost `trace` records every call that
 * is issued, in order, so that contracts can say which keys an operation
 * touches and in what order.
 */
module Store {
  import opened Wrappers
  import opened Codec

  type Data = map<string, seq<byte>>

  datatype Access = Read(key: string) | Write(key: string)

  /** What `getData(key)` returns when it does not raise. */
  function Lookup(data: Data, key: string): (b: seq<byte>)
    ensures key !in data ==> b == []
  {
    if key in data then data[key] else []
  }

  class Substrate {
    var data: Data
    var available: bool
    ghost var trace: seq<Access>

    constructor (initial: Data, up: bool)
      ensures data == initial && available == up && trace == []
    {
      data := initial;
      available := up;
      trace := [];
    }

    /** `getData(key)`: `None` when the call raises. */
    method GetData(key: string, faults: set<string>) returns (r: Option<seq<byte>>)
      modifies this`trace
      ensures trace == old(trace) + [Read(key)]
      ensures r.None? <==> key in faults
      ensures r.Some? ==> r.value == Lookup(data, key)
    {
      trace := trace + [Read(key)];
      if key in faults {
        r := None;
      } else {
        r := Some(Lookup(data, key));
      }
    }

    /** `setData(key, bytes)`: replaces the whole value unless the call raises. */
    method SetData(key: string, bytes: seq<byte>, faults: set<string>) returns (ok: bool)
      modifies this`data, this`trace
      ensures trace == old(trace) + [Write(key)]
      ensures ok <==> key !in faults
      ensures data == if ok then old(data)[key := bytes] else old(data)
    {
      trace := trace + [Write(key)];
      ok := key !in faults;
      if ok {
        data := data[key := bytes];
      }
    }
  }
}
