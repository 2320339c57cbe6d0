/**
 A parsed JSON document: ordered objects, as `serde_json` keeps them with `preserve_order`.
 Every accessor is total: a lookup in the wrong kind of value finds nothing.
 */
module Json {
  import opened Wrappers

  datatype Field = Field(key: string, value: Value)

  datatype Value =
    | Null
    | Bool(flag: bool)
    | Number(n: int)
    | Float(text: string)
    | String(s: string)
    | Array(items: seq<Value>)
    | Object(fields: seq<Field>)
  {
    /** `value.get(key)` */
    function Get(key: string): Option<Value> {
      if Object? then Lookup(fields, key) else None
    }

    /** `value.get(key).and_then(Value::as_str)` */
    function GetStr(key: string): Option<string> {
      match Get(key)
      case Some(String(t)) => Some(t)
      case _ => None
    }

    /** `value.get(key).and_then(Value::as_array)` */
    function GetArray(key: string): Option<seq<Value>> {
      match Get(key)
      case Some(Array(vs)) => Some(vs)
      case _ => None
    }

    /** `value.get(key).and_then(Value::as_u64)` */
    function GetNat(key: string): Option<nat> {
      match Get(key)
      case Some(Number(k)) => if 0 <= k < 0x1_0000_0000_0000_0000 then Some(k) else None
      case _ => None
    }

    /** The document after `*value.get_mut(key).unwrap() = v`; the same document when there is no such key. */
    function With(key: string, v: Value): Value {
      if Object? then Object(Replace(fields, key, v)) else this
    }
  }

  function Lookup(fields: seq<Field>, key: string): Option<Value> {
    if fields == [] then None
    else if fields[0].key == key then Some(fields[0].value)
    else Lookup(fields[1..], key)
  }

  function Replace(fields: seq<Field>, key: string, v: Value): seq<Field> {
    if fields == [] then []
    else if fields[0].key == key then [Field(key, v)] + fields[1..]
    else [fields[0]] + Replace(fields[1..], key, v)
  }

  /** Writing one key changes what that key reads as, and no other key. */
  lemma GetWith(doc: Value, key: string, v: Value, other: string)
    ensures doc.With(key, v).Get(other)
         == if other == key && doc.Get(key).Some? then Some(v) else doc.Get(other)
  {
    if doc.Object? {
      LookupReplace(doc.fields, key, v, other);
    }
  }

  lemma {:induction false} LookupReplace(fields: seq<Field>, key: string, v: Value, other: string)
    ensures Lookup(Replace(fields, key, v), other)
         == if other == key && Lookup(fields, key).Some? then Some(v) else Lookup(fields, other)
  {
    if fields != [] && fields[0].key != key {
      LookupReplace(fields[1..], key, v, other);
    }
  }

  /** Writing back the value a key already has changes nothing. */
  lemma WithSame(doc: Value, key: string)
    requires doc.Get(key).Some?
    ensures doc.With(key, doc.Get(key).value) == doc
  {
    ReplaceSame(doc.fields, key);
  }

  lemma {:induction false} ReplaceSame(fields: seq<Field>, key: string)
    requires Lookup(fields, key).Some?
    ensures Replace(fields, key, Lookup(fields, key).value) == fields
  {
    if fields[0].key != key {
      ReplaceSame(fields[1..], key);
    }
  }

  /** The last of two writes to one key wins. */
  lemma WithTwice(doc: Value, key: string, v: Value, w: Value)
    ensures doc.With(key, v).With(key, w) == doc.With(key, w)
  {
    if doc.Object? {
      ReplaceTwice(doc.fields, key, v, w);
    }
  }

  lemma {:induction false} ReplaceTwice(fields: seq<Field>, key: string, v: Value, w: Value)
    ensures Replace(Replace(fields, key, v), key, w) == Replace(fields, key, w)
  {
    if fields != [] && fields[0].key != key {
      ReplaceTwice(fields[1..], key, v, w);
    }
  }

  /** Reading the second field of an object literal. */
  lemma GetSecond(first: Field, second: Field, rest: seq<Field>)
    requires first.key != second.key
    ensures Object([first, second] + rest).Get(second.key) == Some(second.value)
  {
    var fields := [first, second] + rest;
    assert Lookup(fields, second.key) == Lookup(fields[1..], second.key);
    assert fields[1..][0] == second;
  }

  lemma GetThird(first: Field, second: Field, third: Field)
    requires first.key != third.key && second.key != third.key
    ensures Object([first, second, third]).Get(third.key) == Some(third.value)
  {
    var fields := [first, second, third];
    assert Lookup(fields, third.key) == Lookup(fields[1..], third.key);
    assert fields[1..] == [second, third] + [];
    GetSecond(second, third, []);
  }
}
