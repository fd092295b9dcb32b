/**
  The dictionaries that `to_dict` produces and `from_dict` reads.

  A `Value` is the part of Python's data model the engine's serialisation uses:
  `None`, integers, strings, lists, string-keyed dictionaries and the
  integer-keyed (tier) dictionaries of the exported game state. A Dafny value
  is never shared, so every `.copy()` in the source is implicit here, and
  where `from_dict` keeps the caller's own dictionary the model holds a copy.
*/
module Values {
  import opened Wrappers
  import opened Gems

  datatype Value =
    | VNone
    | VInt(i: int)
    | VStr(s: string)
    | VList(items: seq<Value>)
    | VDict(fields: map<string, Value>)
    | VTierDict(tiers: map<int, Value>)

  /**
    Why a dictionary could not be read back: a missing key is Python's KeyError;
    the other three are values Python would store unchecked but the typed model
    cannot hold (a value of another type, a key or bonus that names no colour
    the field allows, a player's token dictionary without an entry for every
    colour).
  */
  datatype DecodeError =
    | MissingKey(key: string)
    | WrongType(key: string)
    | UnknownColor(key: string)
    | MissingColor(key: string)

  /** `data[key]` on a dictionary value. */
  function Field(v: Value, key: string): (r: Result<Value, DecodeError>)
    ensures r.Success? <==> v.VDict? && key in v.fields
    ensures r.Success? ==> r.value == v.fields[key]
  {
    if v.VDict? && key in v.fields then Success(v.fields[key]) else Failure(MissingKey(key))
  }

  function IntField(v: Value, key: string): Result<int, DecodeError> {
    var f :- Field(v, key);
    if f.VInt? then Success(f.i) else Failure(WrongType(key))
  }

  function StrField(v: Value, key: string): Result<string, DecodeError> {
    var f :- Field(v, key);
    if f.VStr? then Success(f.s) else Failure(WrongType(key))
  }

  function ListField(v: Value, key: string): Result<seq<Value>, DecodeError> {
    var f :- Field(v, key);
    if f.VList? then Success(f.items) else Failure(WrongType(key))
  }

  const Names: set<string> := {"white", "blue", "green", "red", "black", "gold"}

  /** A colour-keyed token dictionary as Python holds it: colour names to integers. */
  function EncodeCounts(m: map<Color, int>): (v: Value)
    ensures v.VDict?
    ensures forall c: Color :: Name(c) in v.fields <==> c in m
    ensures forall k | k in v.fields :: Parse(k).Some? && v.fields[k] == VInt(m[Parse(k).value])
  {
    var f := map k | k in Names && Parse(k).Some? && Parse(k).value in m :: VInt(m[Parse(k).value]);
    assert forall c: Color :: Name(c) in f <==> c in m by {
      forall c: Color ensures Name(c) in f <==> c in m {
        ParseName(c);
      }
    }
    VDict(f)
  }

  /** Reads a colour-keyed dictionary back; a key that names no colour is refused. */
  function DecodeCounts(v: Value, key: string): (r: Result<map<Color, int>, DecodeError>)
    ensures r.Success? <==> v.VDict? && forall k | k in v.fields :: Parse(k).Some? && v.fields[k].VInt?
    ensures r.Success? ==> forall c: Color ::
      (c in r.value <==> Name(c) in v.fields) && (c in r.value ==> v.fields[Name(c)] == VInt(r.value[c]))
  {
    if !v.VDict? then Failure(WrongType(key))
    else if exists k | k in v.fields :: Parse(k).None? then Failure(UnknownColor(key))
    else if exists k | k in v.fields :: !v.fields[k].VInt? then Failure(WrongType(key))
    else Success(map c | c in ColorSet && Name(c) in v.fields :: v.fields[Name(c)].i)
  }

  lemma CountsRoundTrip(m: map<Color, int>, key: string)
    ensures DecodeCounts(EncodeCounts(m), key) == Success(m)
  {
    var f := EncodeCounts(m).fields;
    var d := map c | c in ColorSet && Name(c) in f :: f[Name(c)].i;
    forall c: Color ensures (c in d <==> c in m) && (c in m ==> d[c] == m[c]) {
      ColorsListed(c);
      ParseName(c);
    }
    assert d == m;
  }
}
