/** Parsed JSON request bodies and the field checks of the zod schemas that
    validate them (`z.string().min().max()`, `z.array(...).max().default()`,
    `z.boolean().default()`, `z.enum(...).default()`,
    `z.number().int().min().max().default()`, `.optional()`).
    A key missing from the object plays the part of `undefined`; a present
    `null` is a value of the wrong type, as in zod. */
module Schema {
  import opened Wrappers
  import opened Text

  datatype Json =
    | JNull
    | JBool(b: bool)
    | JNum(n: real)
    | JStr(s: string)
    | JArr(items: seq<Json>)
    | JObj(fields: map<string, Json>)

  /** `z.string().min(lo).max(hi)`; lengths count UTF-16 code units. */
  predicate BoundedString(v: Json, lo: nat, hi: nat) {
    v.JStr? && lo <= Utf16Length(v.s) <= hi
  }

  /** Every string of `ss` satisfies `.min(lo).max(hi)`. */
  predicate AllBounded(ss: seq<string>, lo: nat, hi: nat) {
    forall i :: 0 <= i < |ss| ==> lo <= Utf16Length(ss[i]) <= hi
  }

  /** An array of at most `maxItems` strings, each passing `.min(lo).max(hi)`. */
  predicate IsStringArray(v: Json, lo: nat, hi: nat, maxItems: nat) {
    v.JArr? && |v.items| <= maxItems && forall i :: 0 <= i < |v.items| ==> BoundedString(v.items[i], lo, hi)
  }

  /** The JSON array of the given strings. */
  function JStrings(ss: seq<string>): (items: seq<Json>)
    ensures |items| == |ss|
    ensures forall i :: 0 <= i < |ss| ==> items[i] == JStr(ss[i])
  {
    seq(|ss|, i requires 0 <= i < |ss| => JStr(ss[i]))
  }

  /** A required `z.string().min(lo).max(hi)` field. */
  function RequiredString(fields: map<string, Json>, key: string, lo: nat, hi: nat): (r: Option<string>)
    ensures r.Some? <==> key in fields && BoundedString(fields[key], lo, hi)
    ensures r.Some? ==> fields[key] == JStr(r.value)
  {
    if key in fields && BoundedString(fields[key], lo, hi) then Some(fields[key].s) else None
  }

  /** `z.string().optional()`: `Some(None)` when the key is absent,
      `Some(Some(s))` for a string, `None` (an issue) for anything else. */
  function OptionalString(fields: map<string, Json>, key: string): (r: Option<Option<string>>)
    ensures key !in fields ==> r == Some(None)
    ensures key in fields ==> (r.Some? <==> fields[key].JStr?)
    ensures key in fields && r.Some? ==> r.value == Some(fields[key].s)
  {
    if key !in fields then Some(None)
    else if fields[key].JStr? then Some(Some(fields[key].s))
    else None
  }

  /** `z.array(z.string().min(lo).max(hi)).max(maxItems).default(dflt)`. */
  function StringArray(fields: map<string, Json>, key: string, lo: nat, hi: nat, maxItems: nat, dflt: seq<string>)
    : (r: Option<seq<string>>)
    ensures key !in fields ==> r == Some(dflt)
    ensures key in fields ==> (r.Some? <==> IsStringArray(fields[key], lo, hi, maxItems))
    ensures key in fields && r.Some? ==>
      && fields[key] == JArr(JStrings(r.value))
      && |r.value| <= maxItems
      && AllBounded(r.value, lo, hi)
    ensures forall ss ::
      (key in fields && fields[key] == JArr(JStrings(ss)) && |ss| <= maxItems && AllBounded(ss, lo, hi))
      ==> r == Some(ss)
  {
    if key !in fields then Some(dflt)
    else
      var v := fields[key];
      if IsStringArray(v, lo, hi, maxItems) then
        var ss := seq(|v.items|, i requires 0 <= i < |v.items| => v.items[i].s);
        assert JStrings(ss) == v.items;
        assert forall ss' :: JStrings(ss') == v.items ==> ss' == ss by {
          forall ss' | JStrings(ss') == v.items ensures ss' == ss {
            assert forall i :: 0 <= i < |ss'| ==> JStrings(ss')[i] == JStr(ss'[i]);
          }
        }
        Some(ss)
      else
        None
  }

  /** `z.boolean().default(dflt)`. */
  function DefaultedBool(fields: map<string, Json>, key: string, dflt: bool): (r: Option<bool>)
    ensures key !in fields ==> r == Some(dflt)
    ensures key in fields ==> (r.Some? <==> fields[key].JBool?)
    ensures key in fields && r.Some? ==> fields[key] == JBool(r.value)
  {
    if key !in fields then Some(dflt)
    else if fields[key].JBool? then Some(fields[key].b)
    else None
  }

  /** `z.enum(allowed).default(dflt)` (also `z.nativeEnum` of a string enum). */
  function DefaultedEnum(fields: map<string, Json>, key: string, allowed: seq<string>, dflt: string)
    : (r: Option<string>)
    ensures key !in fields ==> r == Some(dflt)
    ensures key in fields ==> (r.Some? <==> fields[key].JStr? && fields[key].s in allowed)
    ensures key in fields && r.Some? ==> fields[key] == JStr(r.value)
  {
    if key !in fields then Some(dflt)
    else if fields[key].JStr? && fields[key].s in allowed then Some(fields[key].s)
    else None
  }

  /** `z.number().int().min(lo).max(hi).default(dflt)`. */
  function DefaultedInt(fields: map<string, Json>, key: string, lo: int, hi: int, dflt: int): (r: Option<int>)
    ensures key !in fields ==> r == Some(dflt)
    ensures key in fields ==> (r.Some? <==>
      fields[key].JNum? && fields[key].n == fields[key].n.Floor as real && lo as real <= fields[key].n <= hi as real)
    ensures key in fields && r.Some? ==> fields[key] == JNum(r.value as real) && lo <= r.value <= hi
  {
    if key !in fields then Some(dflt)
    else
      var v := fields[key];
      if v.JNum? && v.n == v.n.Floor as real && lo as real <= v.n <= hi as real then Some(v.n.Floor) else None
  }

  /** `z.number().min(lo).max(hi).default(dflt)`, on the exact decimal value. */
  function DefaultedNumber(fields: map<string, Json>, key: string, lo: real, hi: real, dflt: real): (r: Option<real>)
    ensures key !in fields ==> r == Some(dflt)
    ensures key in fields ==> (r.Some? <==> fields[key].JNum? && lo <= fields[key].n <= hi)
    ensures key in fields && r.Some? ==> fields[key] == JNum(r.value)
  {
    if key !in fields then Some(dflt)
    else if fields[key].JNum? && lo <= fields[key].n <= hi then Some(fields[key].n)
    else None
  }

  /** No two checks share a key. */
  predicate DistinctKeys(checks: seq<(string, bool)>) {
    forall i, j :: 0 <= i < j < |checks| ==> checks[i].0 != checks[j].0
  }

  /** With distinct keys, a check's key is in the issue list exactly when
      that check failed. */
  lemma FailedKeyNamed(checks: seq<(string, bool)>, i: nat)
    requires DistinctKeys(checks) && i < |checks|
    ensures checks[i].0 in FailedKeys(checks) <==> !checks[i].1
  {
    if checks[i].0 in FailedKeys(checks) {
      var j :| 0 <= j < |checks| && checks[j].0 == checks[i].0 && !checks[j].1;
      assert j == i;
    }
  }

  /** The keys, in schema order, whose check failed. */
  function FailedKeys(checks: seq<(string, bool)>): (keys: seq<string>)
    ensures forall k :: k in keys <==> exists i :: 0 <= i < |checks| && checks[i].0 == k && !checks[i].1
    ensures keys == [] <==> forall i :: 0 <= i < |checks| ==> checks[i].1
  {
    if |checks| == 0 then []
    else
      var rest := FailedKeys(checks[1..]);
      assert forall i :: 1 <= i < |checks| ==> checks[i] == checks[1..][i - 1];
      (if checks[0].1 then [] else [checks[0].0]) + rest
  }
}
