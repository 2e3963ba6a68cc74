/**
 * The JavaScript values that the client stores as JSON, reads back and
 * renders: truthiness, property access with `?.`, `??` defaults and the
 * text `Array.prototype.join` gives each element.
 */
module Json {
  import opened Wrappers
  import opened Text

  /** A JSON value; numbers carry at most one decimal digit and are counted in tenths. */
  datatype Json =
    | JNull
    | JBool(b: bool)
    | JNum(tenths: int)
    | JStr(s: string)
    | JArr(items: seq<Json>)
    | JObj(fields: map<string, Json>)

  /** JavaScript truthiness of a JSON value. */
  predicate Truthy(j: Json)
  {
    match j
    case JNull => false
    case JBool(b) => b
    case JNum(t) => t != 0
    case JStr(s) => s != ""
    case JArr(_) => true
    case JObj(_) => true
  }

  /** Truthiness of a value that may be `undefined` (`None`). */
  predicate Defined(x: Option<Json>)
  {
    x.Some? && Truthy(x.value)
  }

  /**
   * `x?.key`: the property of an object, `undefined` (`None`) for a missing
   * key, for `undefined`/`null`, and for any value that is not an object.
   */
  function Get(x: Option<Json>, key: string): (r: Option<Json>)
    ensures r.Some? <==> x.Some? && x.value.JObj? && key in x.value.fields
    ensures r.Some? ==> r.value == x.value.fields[key]
  {
    match x
    case Some(JObj(m)) => if key in m then Some(m[key]) else None
    case _ => None
  }

  /** `x ?? d`: `d` when `x` is `undefined` or `null`, otherwise `x` itself. */
  function OrDefault(x: Option<Json>, d: Json): (r: Json)
    ensures x.None? || x.value.JNull? ==> r == d
    ensures x.Some? && !x.value.JNull? ==> r == x.value
  {
    match x
    case None => d
    case Some(JNull) => d
    case Some(v) => v
  }

  /** `String(j)`. */
  function ToText(j: Json): string
    decreases j
  {
    match j
    case JNull => "null"
    case JBool(b) => if b then "true" else "false"
    case JNum(t) => TenthsToString(t)
    case JStr(s) => s
    case JArr(a) => Join(ElementTexts(a), ',')
    case JObj(_) => "[object Object]"
  }

  /** The texts `join` gives the elements of an array: `null` becomes "". */
  function ElementTexts(a: seq<Json>): (r: seq<string>)
    decreases a
    ensures |r| == |a|
    ensures forall i :: 0 <= i < |a| ==> r[i] == if a[i].JNull? then "" else ToText(a[i])
  {
    if |a| == 0 then [] else [if a[0].JNull? then "" else ToText(a[0])] + ElementTexts(a[1..])
  }

  /** The text an array cell shows once joined: `undefined` and `null` are empty. */
  function CellText(x: Option<Json>): (r: string)
    ensures x.None? || x.value.JNull? ==> r == ""
    ensures x.Some? && x.value.JStr? ==> r == x.value.s
    ensures x.Some? && x.value.JNum? ==> r == TenthsToString(x.value.tenths)
  {
    match x
    case None => ""
    case Some(JNull) => ""
    case Some(v) => ToText(v)
  }

  /** `{...x}` when `x` is an array: one entry per element, keyed by its index written in decimal. */
  function IndexEntries(items: seq<Json>): map<string, Json>
  {
    if |items| == 0 then map[]
    else IndexEntries(items[..|items| - 1])[NatToString(|items| - 1) := items[|items| - 1]]
  }

  /** The characters of a text as one-character strings, as spreading a string yields them. */
  function Characters(s: string): (r: seq<Json>)
    ensures |r| == |s|
    ensures forall i :: 0 <= i < |s| ==> r[i] == JStr([s[i]])
  {
    seq(|s|, i requires 0 <= i < |s| => JStr([s[i]]))
  }

  /**
   * The own enumerable properties `{...x}` copies: the fields of an object,
   * the indexed elements of an array or the indexed characters of a string;
   * `null`, booleans and numbers contribute nothing.
   */
  function SpreadEntries(x: Json): map<string, Json>
  {
    match x
    case JObj(m) => m
    case JArr(a) => IndexEntries(a)
    case JStr(s) => IndexEntries(Characters(s))
    case _ => map[]
  }

  /** The entries of an indexed spread are exactly the decimal indices, each holding its element. */
  lemma {:induction false} IndexEntriesSpec(items: seq<Json>)
    ensures IndexEntries(items).Keys == set i | 0 <= i < |items| :: NatToString(i)
    ensures forall i :: 0 <= i < |items| ==>
              NatToString(i) in IndexEntries(items) && IndexEntries(items)[NatToString(i)] == items[i]
  {
    if |items| > 0 {
      var n := |items| - 1;
      var front := items[..n];
      IndexEntriesSpec(front);
      forall i | 0 <= i < |items|
        ensures NatToString(i) in IndexEntries(items) && IndexEntries(items)[NatToString(i)] == items[i]
      {
        if i < n {
          if NatToString(i) == NatToString(n) { NatToStringInjective(i, n); }
          assert front[i] == items[i];
        }
      }
      assert IndexEntries(items).Keys == IndexEntries(front).Keys + {NatToString(n)};
    }
  }

  /** Spreading an array or a string keys each element or character by its index. */
  lemma SpreadOfSequences(x: Json)
    ensures x.JArr? ==> forall i :: 0 <= i < |x.items| ==>
              NatToString(i) in SpreadEntries(x) && SpreadEntries(x)[NatToString(i)] == x.items[i]
    ensures x.JStr? ==> forall i :: 0 <= i < |x.s| ==>
              NatToString(i) in SpreadEntries(x) && SpreadEntries(x)[NatToString(i)] == JStr([x.s[i]])
    ensures x.JNull? || x.JBool? || x.JNum? ==> SpreadEntries(x) == map[]
  {
    match x
    case JArr(a) => IndexEntriesSpec(a);
    case JStr(s) => IndexEntriesSpec(Characters(s));
    case _ =>
  }
}
