/** Parsed JSON values and the accessors the client uses on them. Objects are
    maps: the client's JSON library keeps one value per key. */
module Json {
  import opened Text

  datatype Value =
    | Null
    | Bool(b: bool)
    | Int(n: int)
    | Float(literal: string)
    | Str(s: string)
    | Arr(items: seq<Value>)
    | Obj(fields: map<string, Value>)
  {
    /** `get(key)`: nothing unless this is an object that has the key. */
    function Get(key: string): Option<Value> {
      if Obj? && key in fields then Some(fields[key]) else None
    }

    function AsStr(): Option<string> {
      if Str? then Some(s) else None
    }

    function AsU64(): Option<u64> {
      if Int? && 0 <= n < U64_LIMIT then Some(n) else None
    }

    function AsI64(): Option<i64> {
      if Int? && -I64_LIMIT <= n < I64_LIMIT then Some(n) else None
    }

    function GetStr(key: string): Option<string> {
      match Get(key)
      case Some(v) => v.AsStr()
      case None => None
    }
  }

  /** An object with this value under this key. */
  ghost predicate Holds(v: Value, key: string, x: Value) {
    v.Obj? && key in v.fields && v.fields[key] == x
  }

  /** The accessors find what is there, and strings and integers only as such. */
  lemma AccessorsExact(v: Value, key: string)
    ensures forall x :: v.Get(key) == Some(x) <==> Holds(v, key, x)
    ensures forall s :: v.GetStr(key) == Some(s) <==> Holds(v, key, Str(s))
    ensures forall n: u64 :: v.AsU64() == Some(n) <==> v == Int(n)
    ensures forall n: i64 :: v.AsI64() == Some(n) <==> v == Int(n)
  {
  }

  /** The JSON parser is not part of this model: any function will do. */
  type Parser = string -> Option<Value>
}
