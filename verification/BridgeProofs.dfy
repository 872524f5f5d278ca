/** Round trips through the value bridge. */
module BridgeProofs {
  import opened Wrappers
  import opened Json
  import opened Bridge

  /** No integer above the signed range anywhere inside. */
  ghost predicate Normal(v: Value) {
    match v
    case Num(n) => n.PosInt? ==> n.u <= I64_MAX
    case Array(items) => forall i :: 0 <= i < |items| ==> Normal(items[i])
    case Object(fields) => forall k :: k in fields ==> Normal(fields[k])
    case _ => true
  }

  /** Integers above the signed range become floats; nothing else changes. */
  function NormalizeItems(round: U64 -> real, items: seq<Value>): (r: seq<Value>)
    ensures |r| == |items|
    ensures forall i :: 0 <= i < |items| ==> r[i] == Normalize(round, items[i])
    decreases items, 0
  {
    if items == [] then []
    else NormalizeItems(round, items[..|items| - 1]) + [Normalize(round, items[|items| - 1])]
  }

  function Normalize(round: U64 -> real, v: Value): Value
    decreases v
  {
    match v
    case Num(PosInt(u)) => if u <= I64_MAX then v else Num(Float(round(u)))
    case Array(items) => Array(NormalizeItems(round, items))
    case Object(fields) => Object(map k | k in fields :: Normalize(round, fields[k]))
    case _ => v
  }

  /** There and back: always possible, and the result is the normalized value. */
  lemma {:induction false} ThereAndBack(round: U64 -> real, v: Value)
    ensures JsonToMonty(round, v).Ok?
    ensures MontyToJson(JsonToMonty(round, v).value) == Ok(Normalize(round, v))
    decreases v
  {
    match v
    case Array(items) =>
      ItemsThereAndBack(round, items);
    case Object(fields) =>
      FieldsThereAndBack(round, v, SortedKeys(fields.Keys));
      ObjectThereAndBack(round, v, FieldsToMonty(round, v, SortedKeys(fields.Keys)).value);
    case _ =>
  }

  lemma ObjectThereAndBack(round: U64 -> real, v: Value, pairs: seq<Pair>)
    requires v.Object? && FieldsToMonty(round, v, SortedKeys(v.fields.Keys)) == Ok(pairs)
    requires PairsFields(pairs) == Ok(FieldsAt(round, v, SortedKeys(v.fields.Keys)))
    ensures JsonToMonty(round, v) == Ok(Dict(pairs))
    ensures MontyToJson(Dict(pairs)) == Ok(Normalize(round, v))
  {
    AllFields(round, v, SortedKeys(v.fields.Keys));
  }

  lemma {:induction false} ItemsThereAndBack(round: U64 -> real, items: seq<Value>)
    ensures ItemsToMonty(round, items).Ok?
    ensures ListItems(ItemsToMonty(round, items).value) == Ok(NormalizeItems(round, items))
    decreases items
  {
    if items != [] {
      var init, last := items[..|items| - 1], items[|items| - 1];
      ItemsThereAndBack(round, init);
      ThereAndBack(round, last);
      var before := ItemsToMonty(round, init).value;
      assert (before + [JsonToMonty(round, last).value])[..|before|] == before;
    }
  }

  /** The normalized fields at some of an object's keys. */
  function FieldsAt(round: U64 -> real, v: Value, keys: seq<string>): map<string, Value>
    requires v.Object? && forall k :: k in keys ==> k in v.fields
  {
    map k | k in keys :: Normalize(round, v.fields[k])
  }

  lemma AllFields(round: U64 -> real, v: Value, keys: seq<string>)
    requires v.Object? && forall k :: k in keys <==> k in v.fields
    ensures Object(FieldsAt(round, v, keys)) == Normalize(round, v)
  {
    var some, all := FieldsAt(round, v, keys), Normalize(round, v).fields;
    assert all == map k | k in v.fields :: Normalize(round, v.fields[k]);
    assert some.Keys == all.Keys;
    assert forall k :: k in some ==> some[k] == all[k];
    assert some == all;
  }

  lemma OneMoreField(round: U64 -> real, v: Value, init: seq<string>, last: string)
    requires v.Object? && last in v.fields && forall k :: k in init ==> k in v.fields
    ensures FieldsAt(round, v, init + [last]) == FieldsAt(round, v, init)[last := Normalize(round, v.fields[last])]
  {
  }

  lemma PairsFieldsSnoc(before: seq<Pair>, pair: Pair)
    requires PairsFields(before).Ok? && PairToJson(pair).Ok?
    ensures
      var (key, v) := PairToJson(pair).value;
      PairsFields(before + [pair]) == Ok(PairsFields(before).value[key := v])
  {
    assert (before + [pair])[..|before|] == before;
  }

  lemma {:induction false} FieldsThereAndBack(round: U64 -> real, v: Value, keys: seq<string>)
    requires v.Object? && forall k :: k in keys ==> k in v.fields
    ensures FieldsToMonty(round, v, keys).Ok?
    ensures PairsFields(FieldsToMonty(round, v, keys).value) == Ok(FieldsAt(round, v, keys))
    decreases v, |keys|
  {
    if keys != [] {
      var init, last := keys[..|keys| - 1], keys[|keys| - 1];
      assert keys == init + [last];
      FieldsThereAndBack(round, v, init);
      ThereAndBack(round, v.fields[last]);
      OneMoreField(round, v, init, last);
      var pair := Pair(StringValue(last), JsonToMonty(round, v.fields[last]).value);
      PairsFieldsSnoc(FieldsToMonty(round, v, init).value, pair);
    }
  }

  /** Fields become pairs one for one, in the order of the keys. */
  lemma {:induction false} FieldsInOrder(round: U64 -> real, v: Value, keys: seq<string>, i: nat)
    requires v.Object? && (forall k :: k in keys ==> k in v.fields) && i < |keys|
    requires FieldsToMonty(round, v, keys).Ok?
    ensures
      var pairs := FieldsToMonty(round, v, keys).value;
      && |pairs| == |keys| && pairs[i].key == StringValue(keys[i])
      && JsonToMonty(round, v.fields[keys[i]]) == Ok(pairs[i].value)
    decreases |keys|
  {
    var init := keys[..|keys| - 1];
    if init != [] {
      FieldsInOrder(round, v, init, if i < |init| then i else 0);
    }
  }

  /** An object becomes a dictionary with its keys in rising order, each holding its own converted field. */
  lemma ObjectBecomesOrderedDict(round: U64 -> real, v: Value, i: nat)
    requires v.Object? && i < |SortedKeys(v.fields.Keys)|
    ensures JsonToMonty(round, v).Ok? && JsonToMonty(round, v).value.Dict?
    ensures
      var pairs, key := JsonToMonty(round, v).value.pairs, SortedKeys(v.fields.Keys)[i];
      && |pairs| == |SortedKeys(v.fields.Keys)| && pairs[i].key == StringValue(key)
      && JsonToMonty(round, v.fields[key]) == Ok(pairs[i].value)
  {
    ThereAndBack(round, v);
    FieldsInOrder(round, v, SortedKeys(v.fields.Keys), i);
  }

  lemma {:induction false} NormalizeIsNormal(round: U64 -> real, v: Value)
    ensures Normal(Normalize(round, v))
    ensures Normalize(round, v) == v <==> Normal(v)
    decreases v
  {
    match v
    case Array(items) =>
      forall i | 0 <= i < |items|
        ensures Normal(Normalize(round, items[i])) && (Normalize(round, items[i]) == items[i] <==> Normal(items[i]))
      {
        NormalizeIsNormal(round, items[i]);
      }
      var items' := Normalize(round, v).items;
      assert items' == items <==> forall i :: 0 <= i < |items| ==> items'[i] == items[i];
    case Object(fields) =>
      forall k | k in fields
        ensures Normal(Normalize(round, fields[k])) && (Normalize(round, fields[k]) == fields[k] <==> Normal(fields[k]))
      {
        NormalizeIsNormal(round, fields[k]);
      }
      var fields' := Normalize(round, v).fields;
      assert fields' == fields <==> forall k :: k in fields ==> fields'[k] == fields[k];
    case _ =>
  }

  /** The round trip from JSON is the identity exactly on values without integers above the signed range. */
  lemma RoundTripIdentityIff(round: U64 -> real, v: Value)
    ensures JsonToMonty(round, v).Ok?
    ensures MontyToJson(JsonToMonty(round, v).value) == Ok(v) <==> Normal(v)
  {
    ThereAndBack(round, v);
    NormalizeIsNormal(round, v);
  }

  /** On every value a second round trip changes nothing more. */
  lemma RoundTripIdempotent(round: U64 -> real, v: Value)
    ensures JsonToMonty(round, v).Ok? && MontyToJson(JsonToMonty(round, v).value).Ok?
    ensures
      var once := MontyToJson(JsonToMonty(round, v).value).value;
      JsonToMonty(round, once).Ok? && MontyToJson(JsonToMonty(round, once).value) == Ok(once)
  {
    ThereAndBack(round, v);
    NormalizeIsNormal(round, v);
    RoundTripIdentityIff(round, Normalize(round, v));
  }

  /** What the interpreter sends out contains no integer above the signed range. */
  lemma {:induction false} SentIsNormal(m: MontyObject)
    requires MontyToJson(m).Ok?
    ensures Normal(MontyToJson(m).value)
    decreases m
  {
    match m
    case List(items) => SentItemsAreNormal(items);
    case Tuple(items) => SentItemsAreNormal(items);
    case Set(items) => SentItemsAreNormal(items);
    case FrozenSet(items) => SentItemsAreNormal(items);
    case Dict(pairs) => SentFieldsAreNormal(pairs);
    case _ =>
  }

  lemma {:induction false} SentItemsAreNormal(items: seq<MontyObject>)
    requires ListItems(items).Ok?
    ensures forall i :: 0 <= i < |ListItems(items).value| ==> Normal(ListItems(items).value[i])
    decreases items
  {
    if items != [] {
      SentItemsAreNormal(items[..|items| - 1]);
      SentIsNormal(items[|items| - 1]);
    }
  }

  lemma {:induction false} SentFieldsAreNormal(pairs: seq<Pair>)
    requires PairsFields(pairs).Ok?
    ensures forall k :: k in PairsFields(pairs).value ==> Normal(PairsFields(pairs).value[k])
    decreases pairs
  {
    if pairs != [] {
      SentFieldsAreNormal(pairs[..|pairs| - 1]);
      SentPairIsNormal(pairs[|pairs| - 1]);
    }
  }

  lemma {:induction false} SentPairIsNormal(pair: Pair)
    requires PairToJson(pair).Ok?
    ensures Normal(PairToJson(pair).value.1)
    decreases pair
  {
    SentIsNormal(pair.value);
  }

  /** Whatever the interpreter sends comes back and goes out again as the same JSON. */
  lemma SentRoundTrips(round: U64 -> real, m: MontyObject)
    requires MontyToJson(m).Ok?
    ensures
      var v := MontyToJson(m).value;
      JsonToMonty(round, v).Ok? && MontyToJson(JsonToMonty(round, v).value) == Ok(v)
  {
    SentIsNormal(m);
    RoundTripIdentityIff(round, MontyToJson(m).value);
  }

  /** Pairs with one key keep only the last value. */
  lemma {:induction false} LastDuplicateWins(pairs: seq<Pair>, i: nat)
    requires PairsFields(pairs).Ok? && i < |pairs| && pairs[i].key.StringValue?
    requires forall j :: i < j < |pairs| ==> pairs[j].key != pairs[i].key
    ensures
      var fields := PairsFields(pairs).value;
      pairs[i].key.s in fields && MontyToJson(pairs[i].value) == Ok(fields[pairs[i].key.s])
    decreases |pairs|
  {
    if i < |pairs| - 1 {
      LastDuplicateWins(pairs[..|pairs| - 1], i);
    }
  }

  // ----- What converts, and to what -----

  /** No non-finite float and no dictionary key other than a string, at any depth. */
  ghost predicate Convertible(m: MontyObject) {
    match m
    case FloatValue(f) => f.Finite?
    case List(items) => forall i :: 0 <= i < |items| ==> Convertible(items[i])
    case Tuple(items) => forall i :: 0 <= i < |items| ==> Convertible(items[i])
    case Set(items) => forall i :: 0 <= i < |items| ==> Convertible(items[i])
    case FrozenSet(items) => forall i :: 0 <= i < |items| ==> Convertible(items[i])
    case Dict(pairs) => forall i :: 0 <= i < |pairs| ==> PairConvertible(pairs[i])
    case _ => true
  }

  ghost predicate PairConvertible(pair: Pair) {
    pair.key.StringValue? && Convertible(pair.value)
  }

  /** Exactly the convertible values have a JSON form. */
  lemma {:induction false} ConvertsIff(m: MontyObject)
    ensures MontyToJson(m).Ok? <==> Convertible(m)
    decreases m
  {
    match m
    case List(items) => ItemsConvertIff(items);
    case Tuple(items) => ItemsConvertIff(items);
    case Set(items) => ItemsConvertIff(items);
    case FrozenSet(items) => ItemsConvertIff(items);
    case Dict(pairs) => PairsConvertIff(pairs);
    case _ =>
  }

  /** A sequence converts when each element does, to the converted elements in order. */
  lemma {:induction false} ItemsConvertIff(items: seq<MontyObject>)
    ensures ListItems(items).Ok? <==> forall i :: 0 <= i < |items| ==> Convertible(items[i])
    ensures ListItems(items).Ok? ==>
      && |ListItems(items).value| == |items|
      && forall i :: 0 <= i < |items| ==> MontyToJson(items[i]) == Ok(ListItems(items).value[i])
    decreases items
  {
    if items != [] {
      ItemsConvertIff(items[..|items| - 1]);
      ConvertsIff(items[|items| - 1]);
    }
  }

  /** Pairs convert when each does, to an object with exactly their keys. */
  lemma {:induction false} PairsConvertIff(pairs: seq<Pair>)
    ensures PairsFields(pairs).Ok? <==> forall i :: 0 <= i < |pairs| ==> PairConvertible(pairs[i])
    ensures PairsFields(pairs).Ok? ==>
      forall k :: k in PairsFields(pairs).value <==> HasKey(pairs, k)
    decreases pairs
  {
    if pairs != [] {
      var init, last := pairs[..|pairs| - 1], pairs[|pairs| - 1];
      PairsConvertIff(init);
      PairConvertsIff(last);
      assert pairs == init + [last];
      if PairsFields(pairs).Ok? {
        forall k
          ensures HasKey(pairs, k) <==> HasKey(init, k) || last.key == StringValue(k)
        {
          KeysOfSnoc(init, last, k);
        }
      }
    }
  }

  lemma {:induction false} PairConvertsIff(pair: Pair)
    ensures PairToJson(pair).Ok? <==> PairConvertible(pair)
    decreases pair
  {
    ConvertsIff(pair.value);
  }

  ghost predicate HasKey(pairs: seq<Pair>, k: string) {
    exists i :: 0 <= i < |pairs| && pairs[i].key == StringValue(k)
  }

  lemma KeysOfSnoc(init: seq<Pair>, last: Pair, k: string)
    ensures HasKey(init + [last], k) <==> HasKey(init, k) || last.key == StringValue(k)
  {
    var pairs := init + [last];
    if HasKey(init, k) {
      var i :| 0 <= i < |init| && init[i].key == StringValue(k);
      assert pairs[i].key == StringValue(k);
    }
    assert pairs[|init|] == last;
  }

  // ----- Large integers -----

  function DigitsValue(s: string): int {
    if s == "" then 0 else 10 * DigitsValue(s[..|s| - 1]) + (s[|s| - 1] as int - '0' as int)
  }

  lemma LastDigit(s: string, d: nat)
    requires d < 10
    ensures DigitsValue(s + ["0123456789"[d]]) == 10 * DigitsValue(s) + d
  {
    assert (s + ["0123456789"[d]])[..|s|] == s;
    assert "0123456789"[d] as int == '0' as int + d;
  }

  lemma {:induction false} DigitsRead(n: nat)
    ensures DigitsValue(Digits(n)) == n
    ensures |Digits(n)| > 0 && '0' <= Digits(n)[0] <= '9' && (Digits(n)[0] == '0' ==> n == 0)
  {
    if n >= 10 {
      DigitsRead(n / 10);
      LastDigit(Digits(n / 10), n % 10);
    } else {
      LastDigit("", n);
      assert Digits(n) == "" + ["0123456789"[n]];
    }
  }

  /** A big integer is sent as its decimal text: an optional sign, no leading zero, and its own value. */
  lemma DecimalReads(n: int)
    ensures
      var text := Decimal(n);
      && text != ""
      && (if n < 0 then text[0] == '-' && DigitsValue(text[1..]) == -n else text[0] != '-' && DigitsValue(text) == n)
      && (n != 0 ==> text[if n < 0 then 1 else 0..] != "" && text[if n < 0 then 1 else 0] != '0')
  {
    DigitsRead(if n < 0 then -n else n);
    if n < 0 { assert Decimal(n)[1..] == Digits(-n); }
  }

  // ----- Each value's JSON form -----

  /** An array of the same length whose items are the elements' own conversions, in order. */
  ghost predicate ConvertsTo(items: seq<MontyObject>, v: Value) {
    && v.Array? && |v.items| == |items|
    && forall i :: 0 <= i < |items| ==> MontyToJson(items[i]) == Ok(v.items[i])
  }

  /** Every list, tuple, set and frozen set converts exactly when its elements do, to an array of their conversions. */
  lemma SequencesConvert(m: MontyObject, items: seq<MontyObject>)
    requires m in {List(items), Tuple(items), Set(items), FrozenSet(items)}
    ensures MontyToJson(m).Ok? <==> forall i :: 0 <= i < |items| ==> MontyToJson(items[i]).Ok?
    ensures MontyToJson(m).Ok? ==> ConvertsTo(items, MontyToJson(m).value)
  {
    ItemsConvertIff(items);
    forall i | 0 <= i < |items|
      ensures MontyToJson(items[i]).Ok? <==> Convertible(items[i])
    {
      ConvertsIff(items[i]);
    }
  }

  /** A dictionary converts to an object with exactly its keys, each holding the conversion of its last value. */
  lemma DictionariesConvert(pairs: seq<Pair>, i: nat)
    requires MontyToJson(Dict(pairs)).Ok? && i < |pairs|
    requires forall j :: i < j < |pairs| ==> pairs[j].key != pairs[i].key
    ensures
      var v := MontyToJson(Dict(pairs)).value;
      && v.Object? && (forall k :: k in v.fields <==> HasKey(pairs, k))
      && pairs[i].key.StringValue? && pairs[i].key.s in v.fields
      && MontyToJson(pairs[i].value) == Ok(v.fields[pairs[i].key.s])
  {
    PairsConvertIff(pairs);
    assert PairConvertible(pairs[i]);
    LastDuplicateWins(pairs, i);
  }

  /** A big integer becomes a string that reads back to it: its sign, no leading zero, its own digits. */
  lemma BigIntegersConvert(n: int)
    ensures
      var v := MontyToJson(BigInt(n));
      && v.Ok? && v.value.Str? && v.value.s != ""
      && (if n < 0 then v.value.s[0] == '-' && DigitsValue(v.value.s[1..]) == -n && v.value.s[1..] != ""
                        && v.value.s[1] != '0'
          else v.value.s[0] != '-' && DigitsValue(v.value.s) == n && (n != 0 ==> v.value.s[0] != '0'))
  {
    DecimalReads(n);
  }

  /** The integer a JSON number stands for, if it is one. */
  function NumberValue(n: Number): Option<int> {
    match n
    case PosInt(u) => Some(u)
    case NegInt(i) => Some(i)
    case Float(_) => None
  }

  /** Scalars and texts: each its own value, and nothing for what JSON cannot say. */
  lemma ScalarsConvert(b: bool, i: I64, f: F64, s: string)
    ensures MontyToJson(NoneValue) == MontyToJson(Ellipsis) == Ok(Null)
    ensures MontyToJson(BoolValue(b)) == Ok(Bool(b))
    ensures
      var v := MontyToJson(IntValue(i));
      v.Ok? && v.value.Num? && NumberValue(v.value.n) == Some(i)
    ensures f.Finite? ==> MontyToJson(FloatValue(f)) == Ok(Num(Float(f.r)))
    ensures f.NonFinite? ==> MontyToJson(FloatValue(f)).Err?
    ensures MontyToJson(StringValue(s)) == MontyToJson(PathValue(s)) == MontyToJson(Repr(s)) == Ok(Str(s))
  {
  }

  /** Bytes become an array of their own numbers. */
  lemma BytesConvert(bytes: seq<Byte>)
    ensures MontyToJson(BytesValue(bytes)).Ok? && MontyToJson(BytesValue(bytes)).value.Array?
    ensures
      var items := MontyToJson(BytesValue(bytes)).value.items;
      && |items| == |bytes|
      && forall k :: 0 <= k < |bytes| ==> items[k].Num? && NumberValue(items[k].n) == Some(bytes[k] as int)
  {
  }

  /** Exceptions and functions: exactly their two named fields, null where the second is absent. */
  lemma RecordsConvert(name: string, text: Option<string>)
    ensures
      var v, shown := MontyToJson(Exception(name, text)), if text.Some? then Str(text.value) else Null;
      && v.Ok? && v.value.Object? && v.value.fields.Keys == {"type", "message"}
      && v.value.fields["type"] == Str(name) && v.value.fields["message"] == shown
    ensures
      var v, shown := MontyToJson(Function(name, text)), if text.Some? then Str(text.value) else Null;
      && v.Ok? && v.value.Object? && v.value.fields.Keys == {"name", "docstring"}
      && v.value.fields["name"] == Str(name) && v.value.fields["docstring"] == shown
  {
  }

  // ----- Each JSON value's Monty form -----

  lemma {:induction false} ItemsInOrder(round: U64 -> real, items: seq<Value>, i: nat)
    requires i < |items| && ItemsToMonty(round, items).Ok?
    ensures
      var ms := ItemsToMonty(round, items).value;
      |ms| == |items| && JsonToMonty(round, items[i]) == Ok(ms[i])
    decreases |items|
  {
    var init := items[..|items| - 1];
    if init != [] {
      ItemsInOrder(round, init, if i < |init| then i else 0);
    }
  }

  /** Null, truth values, texts and numbers: an integer in the signed range stays one, any other number is a float. */
  lemma ScalarsReturn(round: U64 -> real, b: bool, s: string, n: Number)
    ensures JsonToMonty(round, Null) == Ok(NoneValue)
    ensures JsonToMonty(round, Bool(b)) == Ok(BoolValue(b))
    ensures JsonToMonty(round, Str(s)) == Ok(StringValue(s))
    ensures
      match n
      case PosInt(u) => JsonToMonty(round, Num(n)) == Ok(if u <= I64_MAX then IntValue(u) else FloatValue(Finite(round(u))))
      case NegInt(i) => JsonToMonty(round, Num(n)) == Ok(IntValue(i))
      case Float(f) => JsonToMonty(round, Num(n)) == Ok(FloatValue(Finite(f)))
  {
  }

  /** An array becomes a list, item by item in order. */
  lemma ArraysReturn(round: U64 -> real, items: seq<Value>)
    ensures
      var m := JsonToMonty(round, Array(items));
      && m.Ok? && m.value.List? && |m.value.items| == |items|
      && forall i :: 0 <= i < |items| ==> JsonToMonty(round, items[i]) == Ok(m.value.items[i])
  {
    ItemsThereAndBack(round, items);
    forall i | 0 <= i < |items|
      ensures |ItemsToMonty(round, items).value| == |items|
      ensures JsonToMonty(round, items[i]) == Ok(ItemsToMonty(round, items).value[i])
    {
      ItemsInOrder(round, items, i);
    }
    if items == [] { assert ItemsToMonty(round, items) == Ok([]); }
  }
}
