/** JSON values as the JavaScript code sees them after `JSON.parse`, with the
    conversions the core applies to them: truthiness, `String(v)`,
    `Array.prototype.join` and one level of `flat()`. Numbers are integers. */
module Json {
  import opened Text

  datatype Json =
    | JNull
    | JBool(b: bool)
    | JNum(n: int)
    | JStr(s: string)
    | JArr(items: seq<Json>)
    | JObj(fields: map<string, Json>)

  /** JavaScript truthiness: `null`, `false`, `0` and `""` are falsy, arrays and objects are not. */
  predicate Truthy(v: Json) {
    match v
    case JNull => false
    case JBool(b) => b
    case JNum(n) => n != 0
    case JStr(s) => s != ""
    case JArr(_) => true
    case JObj(_) => true
  }

  /** `String(v)`: arrays render as their elements joined by `,`. */
  function ToStr(v: Json): string
    decreases v, 1
  {
    match v
    case JNull => "null"
    case JBool(b) => if b then "true" else "false"
    case JNum(n) => IntToString(n)
    case JStr(s) => s
    case JArr(xs) => JoinItems(xs, ",")
    case JObj(_) => "[object Object]"
  }

  /** The completion of an expression that may throw: its value, or the message of the
      error it throws. */
  datatype Completion<T> = Normal(value: T) | Abrupt(message: string)

  /** The `TypeError` of converting an object that has no callable `toString` or `valueOf`. */
  const NoPrimitive: string := "Cannot convert object to primitive value"

  /** The `TypeError` of calling `toString()` on `null`. */
  const NullToString: string := "Cannot read properties of null (reading 'toString')"

  /** Whether converting `v` to a string returns rather than throws. A parsed object
      inherits `toString` and `valueOf` from `Object.prototype`, but an own `toString`
      key hides the inherited method behind a value that cannot be called; the
      inherited `valueOf` gives back the object itself, not a primitive, so the
      conversion throws. `join` converts each element that is not `null`, so an array
      converts exactly when all its elements do. */
  predicate Stringable(v: Json) {
    match v
    case JObj(fields) => "toString" !in fields
    case JArr(xs) => forall i :: 0 <= i < |xs| ==> Stringable(xs[i])
    case _ => true
  }

  /** `String(v)`, which is also how `v + "\n"` and `join` convert a value: an array
      converts through its elements at any depth, and only an object with its own
      `toString` key (or an array holding one) throws. */
  function StringOf(v: Json): (r: Completion<string>)
    ensures r.Abrupt? <==>
      || (v.JObj? && "toString" in v.fields)
      || (v.JArr? && exists i :: 0 <= i < |v.items| && !Stringable(v.items[i]))
    ensures r.Abrupt? ==> r.message == NoPrimitive
    ensures r.Normal? ==> r.value == ToStr(v)
  {
    if Stringable(v) then Normal(ToStr(v)) else Abrupt(NoPrimitive)
  }

  /** `v.toString()` written as `receiver.toString()`: `null` has no methods, an own
      `toString` key is not a function, and an array's inherited `toString` joins its
      elements, which throws when one of them cannot be converted. */
  function CallToString(v: Json, receiver: string): (r: Completion<string>)
    ensures r.Abrupt? <==> v == JNull || !Stringable(v)
    ensures v == JNull ==> r == Abrupt(NullToString)
    ensures v.JObj? && "toString" in v.fields ==> r == Abrupt(receiver + ".toString is not a function")
    ensures v.JArr? && !Stringable(v) ==> r == Abrupt(NoPrimitive)
    ensures r.Normal? ==> r.value == ToStr(v)
  {
    if v == JNull then Abrupt(NullToString)
    else if v.JObj? && "toString" in v.fields then Abrupt(receiver + ".toString is not a function")
    else StringOf(v)
  }

  /** How `join` renders one element: `null` becomes the empty string. */
  function ItemStr(v: Json): string
    decreases v, 2
  {
    if v == JNull then "" else ToStr(v)
  }

  /** `xs.join(sep)` for an array of JSON values. */
  function JoinItems(xs: seq<Json>, sep: string): string
    decreases xs, 0
  {
    if |xs| == 0 then ""
    else if |xs| == 1 then ItemStr(xs[0])
    else ItemStr(xs[0]) + sep + JoinItems(xs[1..], sep)
  }

  /** The elements of an array as `join` renders them, one string each. */
  function ItemStrs(xs: seq<Json>): (r: seq<string>)
    ensures |r| == |xs| && forall i :: 0 <= i < |xs| ==> r[i] == ItemStr(xs[i])
  {
    seq(|xs|, i requires 0 <= i < |xs| => ItemStr(xs[i]))
  }

  /** Joining JSON values is joining their renderings as strings. */
  lemma {:induction false} JoinItemsIsJoin(xs: seq<Json>, sep: string)
    ensures JoinItems(xs, sep) == Join(ItemStrs(xs), sep)
    decreases |xs|
  {
    if |xs| > 1 {
      JoinItemsIsJoin(xs[1..], sep);
      assert ItemStrs(xs)[1..] == ItemStrs(xs[1..]);
    }
  }

  /** `xs.flat()`: the elements of nested arrays are spliced in, one level deep. */
  function Flat(xs: seq<Json>): (r: seq<Json>)
    ensures (forall i :: 0 <= i < |xs| ==> !xs[i].JArr?) ==> r == xs
  {
    if xs == [] then []
    else (if xs[0].JArr? then xs[0].items else [xs[0]]) + Flat(xs[1..])
  }

  /** Flattening works element by element: the flattening of two arrays put together is
      the two flattenings put together. */
  lemma {:induction false} FlatAppend(a: seq<Json>, b: seq<Json>)
    ensures Flat(a + b) == Flat(a) + Flat(b)
    decreases |a|
  {
    if a != [] {
      assert (a + b)[0] == a[0] && (a + b)[1..] == a[1..] + b;
      FlatAppend(a[1..], b);
    } else {
      assert a + b == b;
    }
  }

  /** Every element converts. */
  predicate AllStringable(xs: seq<Json>) {
    forall i :: 0 <= i < |xs| ==> Stringable(xs[i])
  }

  lemma AllStringableAppend(a: seq<Json>, b: seq<Json>)
    ensures AllStringable(a + b) <==> AllStringable(a) && AllStringable(b)
  {
    if AllStringable(a) && AllStringable(b) {
      forall i | 0 <= i < |a + b| ensures Stringable((a + b)[i]) {
        if i >= |a| { assert (a + b)[i] == b[i - |a|]; }
      }
    }
    if AllStringable(a + b) {
      assert forall i :: 0 <= i < |a| ==> a[i] == (a + b)[i];
      assert forall i :: 0 <= i < |b| ==> b[i] == (a + b)[|a| + i];
    }
  }

  /** Flattening keeps the elements' convertibility: a flattened array converts exactly
      when the original does. */
  lemma {:induction false} FlatStringable(xs: seq<Json>)
    ensures AllStringable(Flat(xs)) <==> AllStringable(xs)
    decreases |xs|
  {
    if xs != [] {
      FlatStringable(xs[1..]);
      var head := if xs[0].JArr? then xs[0].items else [xs[0]];
      assert Flat(xs) == head + Flat(xs[1..]);
      AllStringableAppend(head, Flat(xs[1..]));
      assert xs == [xs[0]] + xs[1..];
      AllStringableAppend([xs[0]], xs[1..]);
      assert AllStringable(head) <==> AllStringable([xs[0]]);
    }
  }

  /** A nested array is spliced in with its own elements; only one level is removed. */
  lemma FlatNested(ys: seq<Json>)
    ensures Flat([JArr(ys)]) == ys
  {
    assert [JArr(ys)][1..] == [];
  }

  /** Any other element stays as it is. */
  lemma FlatScalar(x: Json)
    requires !x.JArr?
    ensures Flat([x]) == [x]
  {
    assert [x][1..] == [];
  }
}
