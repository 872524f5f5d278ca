/** The value bridge between the Monty interpreter and JSON. */
module Bridge {
  import opened Wrappers
  import opened Json

  /** A double: finite, or one of the values JSON has no number for. */
  datatype F64 = Finite(r: real) | NonFinite

  type Byte = n: nat | n < 256

  /** The interpreter values with an explicit JSON form. */
  datatype MontyObject =
    | NoneValue
    | Ellipsis
    | BoolValue(b: bool)
    | IntValue(i: I64)
    | BigInt(n: int)
    | FloatValue(f: F64)
    | StringValue(s: string)
    | PathValue(s: string)
    | Repr(s: string)
    | BytesValue(bytes: seq<Byte>)
    | List(items: seq<MontyObject>)
    | Tuple(items: seq<MontyObject>)
    | Set(items: seq<MontyObject>)
    | FrozenSet(items: seq<MontyObject>)
    | Dict(pairs: seq<Pair>)
    | Exception(excType: string, arg: Option<string>)
    | Function(name: string, docstring: Option<string>)

  datatype Pair = Pair(key: MontyObject, value: MontyObject)

  // ----- Monty to JSON -----

  function Digits(n: nat): string {
    (if n < 10 then [] else Digits(n / 10)) + ["0123456789"[n % 10]]
  }

  function Decimal(n: int): string {
    if n < 0 then "-" + Digits(-n) else Digits(n)
  }

  function FromInt(i: I64): Number {
    if i < 0 then NegInt(i) else PosInt(i)
  }

  function StrOrNull(s: Option<string>): Value {
    match s
    case Some(text) => Str(text)
    case None => Null
  }

  function MontyToJson(m: MontyObject): Result<Value, string>
    decreases m
  {
    match m
    case NoneValue => Ok(Null)
    case Ellipsis => Ok(Null)
    case BoolValue(b) => Ok(Bool(b))
    case IntValue(i) => Ok(Num(FromInt(i)))
    case BigInt(n) => Ok(Str(Decimal(n)))
    case FloatValue(Finite(r)) => Ok(Num(Float(r)))
    case FloatValue(NonFinite) => Err("Monty float cannot be represented as JSON")
    case StringValue(s) => Ok(Str(s))
    case PathValue(s) => Ok(Str(s))
    case Repr(s) => Ok(Str(s))
    case BytesValue(bytes) => Ok(Array(seq(|bytes|, i requires 0 <= i < |bytes| => Num(PosInt(bytes[i])))))
    case List(items) => ListToJson(items)
    case Tuple(items) => ListToJson(items)
    case Set(items) => ListToJson(items)
    case FrozenSet(items) => ListToJson(items)
    case Dict(pairs) => PairsToJson(pairs)
    case Exception(excType, arg) => Ok(Object(map["type" := Str(excType), "message" := StrOrNull(arg)]))
    case Function(name, docstring) => Ok(Object(map["name" := Str(name), "docstring" := StrOrNull(docstring)]))
  }

  /** Element by element, stopping at the first failure. */
  function ListItems(items: seq<MontyObject>): Result<seq<Value>, string>
    decreases items, 0
  {
    if items == [] then Ok([])
    else
      match ListItems(items[..|items| - 1])
      case Err(e) => Err(e)
      case Ok(values) =>
        match MontyToJson(items[|items| - 1])
        case Err(e) => Err(e)
        case Ok(v) => Ok(values + [v])
  }

  function ListToJson(items: seq<MontyObject>): Result<Value, string>
    decreases items, 1
  {
    match ListItems(items)
    case Ok(values) => Ok(Array(values))
    case Err(e) => Err(e)
  }

  /** Pairs inserted left to right, so a later duplicate key wins; stops at the first failure. */
  function PairsFields(pairs: seq<Pair>): Result<map<string, Value>, string>
    decreases pairs, 0
  {
    if pairs == [] then Ok(map[])
    else
      match PairsFields(pairs[..|pairs| - 1])
      case Err(e) => Err(e)
      case Ok(fields) =>
        match PairToJson(pairs[|pairs| - 1])
        case Err(e) => Err(e)
        case Ok((name, v)) => Ok(fields[name := v])
  }

  function PairToJson(pair: Pair): Result<(string, Value), string>
    decreases pair
  {
    if !pair.key.StringValue? then Err("Monty key must be str")
    else
      match MontyToJson(pair.value)
      case Err(e) => Err(e)
      case Ok(v) => Ok((pair.key.s, v))
  }

  function PairsToJson(pairs: seq<Pair>): Result<Value, string>
    decreases pairs, 1
  {
    match PairsFields(pairs)
    case Ok(fields) => Ok(Object(fields))
    case Err(e) => Err(e)
  }

  lemma {:induction false} FailureStays(pairs: seq<Pair>, i: nat)
    requires i <= |pairs| && PairsFields(pairs[..i]).Err?
    ensures PairsFields(pairs) == PairsFields(pairs[..i])
    decreases |pairs| - i
  {
    if i < |pairs| {
      assert pairs[..i + 1][..i] == pairs[..i];
      FailureStays(pairs, i + 1);
    } else {
      assert pairs[..i] == pairs;
    }
  }

  /** The insertion loop, for dictionaries and for keyword arguments. */
  method DictPairsToJson(pairs: seq<Pair>) returns (r: Result<Value, string>)
    ensures r == PairsToJson(pairs)
  {
    var entries: map<string, Value> := map[];
    for i := 0 to |pairs|
      invariant PairsFields(pairs[..i]) == Ok(entries)
    {
      assert pairs[..i + 1][..i] == pairs[..i];
      var name: string;
      match pairs[i].key {
        case StringValue(s) => name := s;
        case _ =>
          FailureStays(pairs, i + 1);
          return Err("Monty key must be str");
      }
      match MontyToJson(pairs[i].value) {
        case Ok(v) => entries := entries[name := v];
        case Err(e) =>
          FailureStays(pairs, i + 1);
          return Err(e);
      }
    }
    assert pairs[..|pairs|] == pairs;
    r := Ok(Object(entries));
  }

  // ----- JSON to Monty -----

  function AsI64(n: Number): Option<I64> {
    match n
    case PosInt(u) => if u <= I64_MAX then Some(u) else None
    case NegInt(i) => Some(i)
    case Float(_) => None
  }

  /** `round` is the conversion of a large word to the nearest double, whatever it is. */
  function AsF64(round: U64 -> real, n: Number): Option<F64> {
    match n
    case PosInt(u) => Some(Finite(round(u)))
    case NegInt(i) => Some(Finite(i as real))
    case Float(f) => Some(Finite(f))
  }

  function JsonToMonty(round: U64 -> real, v: Value): Result<MontyObject, string>
    decreases v
  {
    match v
    case Null => Ok(NoneValue)
    case Bool(b) => Ok(BoolValue(b))
    case Num(n) =>
      (match AsI64(n)
       case Some(i) => Ok(IntValue(i))
       case None =>
         match AsF64(round, n)
         case Some(f) => Ok(FloatValue(f))
         case None => Err("JSON number cannot be represented by Monty"))
    case Str(s) => Ok(StringValue(s))
    case Array(items) =>
      (match ItemsToMonty(round, items)
       case Ok(values) => Ok(List(values))
       case Err(e) => Err(e))
    case Object(fields) =>
      match FieldsToMonty(round, v, SortedKeys(fields.Keys))
      case Ok(pairs) => Ok(Dict(pairs))
      case Err(e) => Err(e)
  }

  function ItemsToMonty(round: U64 -> real, items: seq<Value>): Result<seq<MontyObject>, string>
    decreases items
  {
    if items == [] then Ok([])
    else
      match ItemsToMonty(round, items[..|items| - 1])
      case Err(e) => Err(e)
      case Ok(values) =>
        match JsonToMonty(round, items[|items| - 1])
        case Err(e) => Err(e)
        case Ok(m) => Ok(values + [m])
  }

  function FieldsToMonty(round: U64 -> real, v: Value, keys: seq<string>): Result<seq<Pair>, string>
    requires v.Object? && forall k :: k in keys ==> k in v.fields
    decreases v, |keys|
  {
    if keys == [] then Ok([])
    else
      match FieldsToMonty(round, v, keys[..|keys| - 1])
      case Err(e) => Err(e)
      case Ok(pairs) =>
        var key := keys[|keys| - 1];
        match JsonToMonty(round, v.fields[key])
        case Err(e) => Err(e)
        case Ok(m) => Ok(pairs + [Pair(StringValue(key), m)])
  }

  // ----- Key order -----

  /** Lexicographic order of strings. */
  predicate AtMost(a: string, b: string) {
    a == [] || (b != [] && (a[0] < b[0] || (a[0] == b[0] && AtMost(a[1..], b[1..]))))
  }

  lemma AtMostTotal(a: string, b: string)
    ensures AtMost(a, b) || AtMost(b, a)
  {
  }

  lemma AtMostAntisymmetric(a: string, b: string)
    requires AtMost(a, b) && AtMost(b, a)
    ensures a == b
  {
    if a != [] {
      AtMostAntisymmetric(a[1..], b[1..]);
      assert a == [a[0]] + a[1..] && b == [b[0]] + b[1..];
    }
  }

  lemma AtMostTransitive(a: string, b: string, c: string)
    requires AtMost(a, b) && AtMost(b, c)
    ensures AtMost(a, c)
  {
  }

  ghost predicate IsLeast(k: string, keys: set<string>) {
    k in keys && forall other :: other in keys ==> AtMost(k, other)
  }

  lemma {:induction false} LeastExists(keys: set<string>)
    requires keys != {}
    ensures exists k :: IsLeast(k, keys)
  {
    var x :| x in keys;
    AtMostTotal(x, x);
    if keys == {x} {
      assert IsLeast(x, keys);
    } else {
      LeastExists(keys - {x});
      var k :| IsLeast(k, keys - {x});
      AtMostTotal(x, k);
      LeastOfBoth(x, k, keys);
    }
  }

  lemma LeastOfBoth(x: string, k: string, keys: set<string>)
    requires x in keys && IsLeast(k, keys - {x}) && (AtMost(x, k) || AtMost(k, x))
    ensures IsLeast(if AtMost(x, k) then x else k, keys)
  {
    AtMostTotal(x, x);
    if AtMost(x, k) {
      forall other | other in keys
        ensures AtMost(x, other)
      {
        if other != x { AtMostTransitive(x, k, other); }
      }
    } else {
      assert forall other :: other in keys ==> other == x || other in keys - {x};
    }
  }

  function Least(keys: set<string>): (k: string)
    requires keys != {}
    ensures IsLeast(k, keys)
  {
    LeastExists(keys);
    assert exists k :: k in keys && forall other :: other in keys ==> AtMost(k, other) by {
      var k :| IsLeast(k, keys);
    }
    assert forall a, b |
        && (a in keys && forall other :: other in keys ==> AtMost(a, other))
        && (b in keys && forall other :: other in keys ==> AtMost(b, other)) :: a == b by {
      forall a, b | a in keys && b in keys && AtMost(a, b) && AtMost(b, a)
        ensures a == b
      {
        AtMostAntisymmetric(a, b);
      }
    }
    var k :| k in keys && forall other :: other in keys ==> AtMost(k, other);
    k
  }

  /** The keys of an object in its own order. */
  function SortedKeys(keys: set<string>): (sorted: seq<string>)
    ensures forall k :: k in sorted <==> k in keys
    decreases |keys|
  {
    if keys == {} then []
    else
      var least := Least(keys);
      [least] + SortedKeys(keys - {least})
  }

  /** Each key once, in rising order. */
  lemma {:induction false} KeysRise(keys: set<string>, i: nat, j: nat)
    requires i < j < |SortedKeys(keys)|
    ensures SortedKeys(keys)[i] != SortedKeys(keys)[j] && AtMost(SortedKeys(keys)[i], SortedKeys(keys)[j])
    decreases |keys|
  {
    var least := Least(keys);
    var rest := SortedKeys(keys - {least});
    assert SortedKeys(keys) == [least] + rest;
    if i == 0 {
      assert rest[j - 1] in rest;
    } else {
      KeysRise(keys - {least}, i - 1, j - 1);
    }
  }
}
