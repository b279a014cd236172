/**
 * The part of Zod the API routes use, read over a parsed JSON body: an
 * object schema whose keys are required or optional strings, numbers,
 * booleans, arrays of strings and enumerations, with defaults. Reading a
 * key yields its value, or `None` where `schema.parse` would throw a
 * `ZodError`. For a key that may be absent the value is itself an
 * `Option`: `Some(None)` is a valid, absent (`undefined`) key. `null` is
 * not `undefined`: `.optional()` and `.default(...)` reject it.
 */
module Schema {
  import opened Wrappers
  import opened Json

  type Fields = seq<(string, Json)>

  /** `z.object(...)`: a body that is not a JSON object fails. */
  function AsObject(body: Json): (r: Option<Fields>)
    ensures r.Some? <==> body.JObj?
    ensures r.Some? ==> r.value == body.fields
  {
    if body.JObj? then Some(body.fields) else None
  }

  /** `z.string().min(min)`. */
  function RequiredString(fields: Fields, key: string, min: nat): (r: Option<string>)
    ensures r.Some? <==> exists s :: Lookup(fields, key) == Some(JStr(s)) && |s| >= min
    ensures r.Some? ==> Lookup(fields, key) == Some(JStr(r.value))
  {
    match Lookup(fields, key)
    case Some(JStr(s)) => if |s| >= min then Some(s) else None
    case _ => None
  }

  /** `z.string().email()`, with email validity left to the caller's predicate. */
  function EmailString(fields: Fields, key: string, isEmail: string -> bool): (r: Option<string>)
    ensures r.Some? <==> exists s :: Lookup(fields, key) == Some(JStr(s)) && isEmail(s)
    ensures r.Some? ==> Lookup(fields, key) == Some(JStr(r.value))
  {
    match Lookup(fields, key)
    case Some(JStr(s)) => if isEmail(s) then Some(s) else None
    case _ => None
  }

  /** `z.string().optional()`: absent is fine, a string is kept, anything else (`null` too) fails. */
  function OptionalString(fields: Fields, key: string): (r: Option<Option<string>>)
    ensures r == Some(None) <==> Lookup(fields, key).None?
    ensures forall s :: r == Some(Some(s)) <==> Lookup(fields, key) == Some(JStr(s))
    ensures r.None? <==> Lookup(fields, key).Some? && !Lookup(fields, key).value.JStr?
  {
    match Lookup(fields, key)
    case None => Some(None)
    case Some(JStr(s)) => Some(Some(s))
    case _ => None
  }

  /** `z.number().min(min)`. */
  function RequiredNumber(fields: Fields, key: string, min: real): (r: Option<real>)
    ensures r.Some? <==> exists n :: Lookup(fields, key) == Some(JNum(n)) && n >= min
    ensures r.Some? ==> Lookup(fields, key) == Some(JNum(r.value))
  {
    match Lookup(fields, key)
    case Some(JNum(n)) => if n >= min then Some(n) else None
    case _ => None
  }

  /** `z.number().optional()`. */
  function OptionalNumber(fields: Fields, key: string): (r: Option<Option<real>>)
    ensures r == Some(None) <==> Lookup(fields, key).None?
    ensures forall n :: r == Some(Some(n)) <==> Lookup(fields, key) == Some(JNum(n))
    ensures r.None? <==> Lookup(fields, key).Some? && !Lookup(fields, key).value.JNum?
  {
    match Lookup(fields, key)
    case None => Some(None)
    case Some(JNum(n)) => Some(Some(n))
    case _ => None
  }

  /** `z.number().default(d)`: an absent key takes `d`. */
  function NumberOr(fields: Fields, key: string, d: real): (r: Option<real>)
    ensures Lookup(fields, key).None? ==> r == Some(d)
    ensures forall n :: Lookup(fields, key) == Some(JNum(n)) ==> r == Some(n)
    ensures r.None? <==> Lookup(fields, key).Some? && !Lookup(fields, key).value.JNum?
  {
    match OptionalNumber(fields, key)
    case None => None
    case Some(v) => Some(v.GetOr(d))
  }

  /** `z.boolean().optional()`. */
  function OptionalBool(fields: Fields, key: string): (r: Option<Option<bool>>)
    ensures r == Some(None) <==> Lookup(fields, key).None?
    ensures forall b :: r == Some(Some(b)) <==> Lookup(fields, key) == Some(JBool(b))
    ensures r.None? <==> Lookup(fields, key).Some? && !Lookup(fields, key).value.JBool?
  {
    match Lookup(fields, key)
    case None => Some(None)
    case Some(JBool(b)) => Some(Some(b))
    case _ => None
  }

  /** `z.boolean().default(d)`. */
  function BoolOr(fields: Fields, key: string, d: bool): (r: Option<bool>)
    ensures Lookup(fields, key).None? ==> r == Some(d)
    ensures forall b :: Lookup(fields, key) == Some(JBool(b)) ==> r == Some(b)
    ensures r.None? <==> Lookup(fields, key).Some? && !Lookup(fields, key).value.JBool?
  {
    match OptionalBool(fields, key)
    case None => None
    case Some(v) => Some(v.GetOr(d))
  }

  /** An array whose every element is a string accepted by `item`. */
  function StringItems(j: Json, item: string -> bool): (r: Option<seq<string>>)
    ensures r.Some? <==> j.JArr? && forall i :: 0 <= i < |j.items| ==> j.items[i].JStr? && item(j.items[i].s)
    ensures r.Some? ==> j == StrArray(r.value)
  {
    match j
    case JArr(items) =>
      if forall i :: 0 <= i < |items| ==> items[i].JStr? && item(items[i].s)
      then
        var xs := seq(|items|, i requires 0 <= i < |items| => items[i].s);
        assert StrArray(xs).items == items;
        Some(xs)
      else None
    case _ => None
  }

  /** `z.array(z.string())`, or `z.array(z.string().email())` with `item` the email predicate. */
  function StringArray(fields: Fields, key: string, item: string -> bool): (r: Option<seq<string>>)
    ensures r.Some? <==> Lookup(fields, key).Some? && StringItems(Lookup(fields, key).value, item).Some?
    ensures r.Some? ==> Lookup(fields, key) == Some(StrArray(r.value))
  {
    match Lookup(fields, key)
    case None => None
    case Some(j) => StringItems(j, item)
  }

  /** The same, `.optional()`. */
  function OptionalStringArray(fields: Fields, key: string, item: string -> bool): (r: Option<Option<seq<string>>>)
    ensures r == Some(None) <==> Lookup(fields, key).None?
    ensures r.Some? && r.value.Some? ==> Lookup(fields, key) == Some(StrArray(r.value.value))
    ensures r.None? <==> Lookup(fields, key).Some? && StringItems(Lookup(fields, key).value, item).None?
  {
    match Lookup(fields, key)
    case None => Some(None)
    case Some(j) => if StringItems(j, item).Some? then Some(StringItems(j, item)) else None
  }

  /** `z.enum(options).default(d)`. */
  function EnumOr(fields: Fields, key: string, options: seq<string>, d: string): (r: Option<string>)
    ensures Lookup(fields, key).None? ==> r == Some(d)
    ensures forall s :: Lookup(fields, key) == Some(JStr(s)) ==> r == (if s in options then Some(s) else None)
    ensures Lookup(fields, key).Some? && !Lookup(fields, key).value.JStr? ==> r.None?
  {
    match Lookup(fields, key)
    case None => Some(d)
    case Some(JStr(s)) => if s in options then Some(s) else None
    case _ => None
  }

  /** Every string is an acceptable element of a plain `z.array(z.string())`. */
  function AnyString(s: string): bool { true }

  /** Reading an array written from a list gives the list back, whatever the element predicate accepts of it. */
  lemma StringItemsOf(xs: seq<string>, item: string -> bool)
    requires forall x :: x in xs ==> item(x)
    ensures StringItems(StrArray(xs), item) == Some(xs)
  {
    var j := StrArray(xs);
    assert forall i :: 0 <= i < |j.items| ==> j.items[i].JStr? && item(j.items[i].s) by {
      forall i | 0 <= i < |j.items| ensures j.items[i].JStr? && item(j.items[i].s) {
        assert j.items[i] == JStr(xs[i]);
        assert xs[i] in xs;
      }
    }
    var back := StringItems(j, item).value;
    assert StrArray(back) == j;
    assert |back| == |xs|;
    forall i | 0 <= i < |xs| ensures back[i] == xs[i] {
      assert StrArray(back).items[i] == JStr(back[i]);
    }
    assert back == xs;
  }

  /** An element the predicate refuses makes the whole array fail. */
  lemma StringItemsRejects(xs: seq<string>, item: string -> bool, k: nat)
    requires k < |xs| && !item(xs[k])
    ensures StringItems(StrArray(xs), item).None?
  {
    assert StrArray(xs).items[k] == JStr(xs[k]);
  }
}
