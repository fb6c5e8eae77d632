/** Opaque JSON values as they travel through payloads, inputs and outputs,
    plus the few JavaScript coercions the emulator applies to them. */
module Json {
  import opened Wrappers
  import Text

  /** A parsed JSON value. Numbers are modelled as integers. */
  datatype Value =
    | Null
    | Bool(b: bool)
    | Num(n: int)
    | Str(s: string)
    | Arr(items: seq<Value>)
    | Obj(fields: map<string, Value>)

  /** The empty object literal `{}`. */
  const EmptyObject: Value := Obj(map[])

  /** JavaScript truthiness: `null`, `false`, `0` and `""` are falsy, every array
      and object is truthy. */
  predicate Truthy(v: Value) {
    match v
    case Null => false
    case Bool(b) => b
    case Num(n) => n != 0
    case Str(s) => s != ""
    case Arr(_) => true
    case Obj(_) => true
  }

  /** Truthiness of a possibly-undefined value (`undefined` is falsy). */
  predicate Defined(o: Option<Value>) {
    o.Some? && Truthy(o.value)
  }

  /** The expression `a || b`: `a` when it is truthy, otherwise `b`. */
  function Or(a: Option<Value>, b: Value): (r: Value)
    ensures Defined(a) ==> r == a.value
    ensures !Defined(a) ==> r == b
  {
    if a.Some? && Truthy(a.value) then a.value else b
  }

  /** Property read `v.key`: the field of an object, `undefined` otherwise. */
  function Field(v: Value, key: string): (r: Option<Value>)
    ensures r.Some? <==> v.Obj? && key in v.fields
    ensures r.Some? ==> r.value == v.fields[key]
  {
    if v.Obj? && key in v.fields then Some(v.fields[key]) else None
  }

  /** Property read through an optional chain, `v?.key`. */
  function FieldOf(o: Option<Value>, key: string): Option<Value> {
    if o.Some? then Field(o.value, key) else None
  }

  /** Strict equality `a === b` on possibly-undefined values. Two arrays or two
      objects are never `===` here: they are distinct references. */
  predicate StrictEquals(a: Option<Value>, b: Option<Value>) {
    match (a, b)
    case (None, None) => true
    case (Some(x), Some(y)) =>
      && !x.Arr? && !x.Obj?
      && x == y
    case _ => false
  }

  /** `v === str` for a string literal `str`. */
  predicate IsString(o: Option<Value>, str: string) {
    o == Some(Str(str))
  }

  /** The string held in `o`, if `o` is a string. */
  function AsString(o: Option<Value>): (r: Option<string>)
    ensures r.Some? <==> o.Some? && o.value.Str?
    ensures r.Some? ==> o == Some(Str(r.value))
  {
    if o.Some? && o.value.Str? then Some(o.value.s) else None
  }

  /** The largest distance from the epoch, in milliseconds, that a `Date` can
      hold: 100,000,000 days. */
  const MaxTime := 8_640_000_000_000_000

  /** TimeClip: a time further than `MaxTime` from the epoch is an invalid
      date. */
  function TimeClip(t: Option<int>): (r: Option<int>)
    ensures r.Some? <==> t.Some? && -MaxTime <= t.value <= MaxTime
    ensures r.Some? ==> r == t
  {
    if t.Some? && -MaxTime <= t.value <= MaxTime then t else None
  }

  /** The text an array element contributes to `Array.prototype.join`:
      `null` contributes nothing, an inner array its own joined text, an
      object `[object Object]`, and a number its decimal digits. */
  function ElementText(v: Value): (r: string)
    ensures v.Str? ==> r == v.s
    ensures v.Null? ==> r == ""
  {
    match v
    case Null => ""
    case Bool(b) => if b then "true" else "false"
    case Num(n) => Text.DecimalString(n)
    case Str(str) => str
    case Arr(items) => Text.Join(seq(|items|, i requires 0 <= i < |items| => ElementText(items[i])), ',')
    case Obj(_) => "[object Object]"
  }

  /** `new Date(v).getTime()` in milliseconds, `None` for an invalid date.
      `ToPrimitive` comes first: an array becomes its comma-joined text and an
      object the text `[object Object]`, and both are then read as strings.
      Numbers are milliseconds since the epoch, `null` is the epoch and booleans
      are 0 or 1; a string is read by the date-string parser `parse`, which the
      model takes as a parameter. `undefined`, and any time beyond `MaxTime`
      either side of the epoch, is an invalid date. */
  function DateMillis(o: Option<Value>, parse: string -> Option<int>): (r: Option<int>)
    ensures o.None? ==> r.None?
    ensures o == Some(Null) ==> r == Some(0)
    ensures o.Some? && o.value.Bool? ==> r == Some(if o.value.b then 1 else 0)
    ensures o.Some? && o.value.Num? ==> r == TimeClip(Some(o.value.n))
    ensures o.Some? && o.value.Str? ==> r == TimeClip(parse(o.value.s))
    ensures o.Some? && o.value.Arr? ==> r == TimeClip(parse(ElementText(o.value)))
    ensures o.Some? && o.value.Obj? ==> r == TimeClip(parse("[object Object]"))
    ensures r.Some? ==> -MaxTime <= r.value <= MaxTime
  {
    match o
    case None => None
    case Some(Null) => Some(0)
    case Some(Bool(b)) => Some(if b then 1 else 0)
    case Some(Num(n)) => TimeClip(Some(n))
    case Some(Str(str)) => TimeClip(parse(str))
    case Some(Arr(_)) => TimeClip(parse(ElementText(o.value)))
    case Some(Obj(_)) => TimeClip(parse("[object Object]"))
  }

  /** An array holding one string is the same date as that string. */
  lemma SingletonArrayDate(str: string, parse: string -> Option<int>)
    ensures DateMillis(Some(Arr([Str(str)])), parse) == DateMillis(Some(Str(str)), parse)
  {
    var parts := seq(1, i requires 0 <= i < 1 => ElementText([Str(str)][i]));
    assert parts == [str];
  }
}
