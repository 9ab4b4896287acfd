// The database adapter over the storage engine (db/splitlsm_db.cc). The engine is a map
// that answers a missing key with an empty value; a call it fails by throwing has no
// effect and is reported as an error.

module Store {
  import opened Wrappers
  import opened KeyName
  import Z = Zipfian

  // kOK = 0, kErrorNoData = 1
  datatype Status = OK | NO_DATA

  // The field/value pairs of a record.
  type Fields = seq<(string, string)>

  function SerializeValues(values: Fields): string {
    if values == [] then "" else values[0].1
  }

  function EngineGet(engine: map<string, string>, key: string): string {
    if key in engine then engine[key] else ""
  }

  // What Read reports when the engine answers.
  function ReadStatus(engine: map<string, string>, key: string): Status {
    if EngineGet(engine, key) == "" then NO_DATA else OK
  }

  // The pairs PopulateResult adds for a stored value; None asks for all fields.
  function Populated(value: string, fields: Option<seq<string>>): Fields {
    match fields
    case None => [("field0", value)]
    case Some(names) => seq(|names|, i requires 0 <= i < |names| => (names[i], value))
  }

  class SplitLsmDB {
    var engine: map<string, string>

    constructor ()
      ensures engine == map[]
    {
      engine := map[];
    }

    method Read(key: string, fields: Option<seq<string>>, fails: bool) returns (status: Status, result: Fields)
      ensures status == if fails then NO_DATA else ReadStatus(engine, key)
      ensures result == if status == OK then Populated(engine[key], fields) else []
    {
      result := [];
      if fails {
        return NO_DATA, [];
      }
      var value := EngineGet(engine, key);
      if value == "" {
        return NO_DATA, [];
      }
      result := PopulateResult(value, fields, result);
      status := OK;
    }

    method Update(key: string, values: Fields, fails: bool) returns (status: Status)
      modifies this
      ensures status == if fails then NO_DATA else OK
      ensures engine == if fails then old(engine) else old(engine)[key := SerializeValues(values)]
    {
      if fails {
        return NO_DATA;
      }
      engine := engine[key := SerializeValues(values)];
      status := OK;
    }

    method Insert(key: string, values: Fields, fails: bool) returns (status: Status)
      modifies this
      ensures status == if fails then NO_DATA else OK
      ensures engine == if fails then old(engine) else old(engine)[key := SerializeValues(values)]
    {
      status := Update(key, values, fails);
    }

    method Delete(key: string, fails: bool) returns (status: Status)
      modifies this
      ensures status == if fails then NO_DATA else OK
      ensures engine == if fails then old(engine) else old(engine) - {key}
    {
      if fails {
        return NO_DATA;
      }
      engine := engine - {key};
      status := OK;
    }
  }

  method PopulateResult(value: string, fields: Option<seq<string>>, before: Fields) returns (result: Fields)
    ensures result == before + Populated(value, fields)
  {
    result := before;
    match fields
    case None =>
      result := result + [("field0", value)];
    case Some(names) =>
      for i := 0 to |names|
        invariant result == before + Populated(value, Some(names[..i]))
      {
        result := result + [(names[i], value)];
      }
      assert names[..|names|] == names;
  }

  // A written record reads back only through its first field: the value of that field
  // answers every field name, and an empty one reads as no data.
  lemma ReadAfterWrite(engine: map<string, string>, key: string, values: Fields, other: string,
                       names: seq<string>)
    ensures var after := engine[key := SerializeValues(values)];
            && (ReadStatus(after, key) == OK <==> values != [] && values[0].1 != "")
            && (ReadStatus(after, key) == OK ==> Populated(EngineGet(after, key), None) == [("field0", values[0].1)])
            && (ReadStatus(after, key) == OK ==>
                  var pairs := Populated(EngineGet(after, key), Some(names));
                  |pairs| == |names| && forall i | 0 <= i < |names| :: pairs[i] == (names[i], values[0].1))
            && (other != key ==> EngineGet(after, other) == EngineGet(engine, other))
  {
  }

  // A field value: len copies of one printable character.
  function Repeat(len: nat, c: char): string {
    seq(len, _ => c)
  }

  // CoreWorkload::BuildValues for the given lengths and characters.
  method BuildValues(fieldCount: nat, lens: nat -> nat, chars: nat -> char) returns (values: Fields)
    ensures |values| == fieldCount
    ensures forall i | 0 <= i < fieldCount :: values[i] == ("field" + Decimal(i), Repeat(lens(i), chars(i)))
    ensures SerializeValues(values) != "" <==> fieldCount > 0 && lens(0) > 0
  {
    values := [];
    for i := 0 to fieldCount
      invariant |values| == i
      invariant forall j | 0 <= j < i :: values[j] == ("field" + Decimal(j), Repeat(lens(j), chars(j)))
    {
      values := values + [("field" + Decimal(i), Repeat(lens(i), chars(i)))];
    }
  }

  // Zipfian field lengths start at 0, not at the 1 the generator is created with: exactly
  // the draws below 1 / zeta make an empty value.
  lemma ZipfianLengthCanBeZero(ar: Z.Arithmetic, lengths: Z.State, u: real)
    requires Z.Exact(ar) && Z.Coherent(ar, lengths) && lengths.base == 1 && lengths.nForZeta == lengths.numItems
    requires 0.0 <= u < 1.0
    ensures lengths.zetaN > 0.0
    ensures Z.Drawn(ar, lengths, lengths.numItems, u) == Some(0) <==> u < 1.0 / lengths.zetaN
  {
    Z.ZetaPastTwo(ar, lengths);
    Z.Threshold(u, lengths.zetaN, 1.0);
    if lengths.numItems == 2 {
      Z.TwoItems(ar, lengths, 2, u);
    } else if Z.InTail(ar, lengths, u) {
      Z.TailBand(ar, lengths, lengths.numItems, u);
    }
  }
}
