/**
 * An offer as the dashboard receives it: an untyped JSON record, and the
 * three field pickers `pickString`, `pickNumber` and `pickDateISO` that read
 * the first listed field holding a usable value.
 */
module Offers {
  import opened Wrappers
  import opened Text
  import opened NumericParse

  /** A JSON field value. `NaN` is a number field whose value is NaN; `Num` never holds NaN. */
  datatype Value = Str(s: string) | Num(x: real) | NaN | Bool(b: bool) | Null | Other

  /** A record; a key that is not in the map reads as `undefined`. */
  type Offer = map<string, Value>

  /** `o[k]`, with `None` for `undefined`. */
  function Field(o: Offer, k: string): Option<Value> {
    if k in o then Some(o[k]) else None
  }

  /** What `pickString` accepts: a string whose trim is non-empty, returned as it is. */
  function AsText(v: Option<Value>): Option<string> {
    match v
    case Some(Str(s)) => if Trim(s) != [] then Some(s) else None
    case _ => None
  }

  /** What `pickNumber` accepts: a number that is not NaN, or a string `parseNumeric` can read. */
  function AsNumber(v: Option<Value>): Option<real> {
    match v
    case Some(Num(x)) => Some(x)
    case Some(Str(s)) => ParseNumeric(s)
    case _ => None
  }

  /** `s[i..i+10]` has the shape `dddd-dd-dd`. */
  predicate DateAt(s: string, i: int) {
    0 <= i && i + 10 <= |s| &&
    IsDigit(s[i]) && IsDigit(s[i + 1]) && IsDigit(s[i + 2]) && IsDigit(s[i + 3]) && s[i + 4] == '-' &&
    IsDigit(s[i + 5]) && IsDigit(s[i + 6]) && s[i + 7] == '-' && IsDigit(s[i + 8]) && IsDigit(s[i + 9])
  }

  /** `/\d{4}-\d{2}-\d{2}/.test(s)`: the pattern occurs anywhere in `s`. */
  predicate HasDatePattern(s: string) {
    exists i | 0 <= i <= |s| :: DateAt(s, i)
  }

  /** What `pickDateISO` accepts: a string containing a `dddd-dd-dd` run, returned as it is. */
  function AsDate(v: Option<Value>): Option<string> {
    match v
    case Some(Str(s)) => if HasDatePattern(s) then Some(s) else None
    case _ => None
  }

  /** The value `accept` extracts from the first key of `keys` whose field it accepts. */
  function FirstOf<T>(o: Offer, keys: seq<string>, accept: Option<Value> -> Option<T>): Option<T>
    decreases |keys|
  {
    if keys == [] then None
    else match accept(Field(o, keys[0]))
      case Some(x) => Some(x)
      case None => FirstOf(o, keys[1..], accept)
  }

  /** Key `keys[i]` is accepted and no key before it is. */
  ghost predicate EarliestAt<T>(o: Offer, keys: seq<string>, accept: Option<Value> -> Option<T>, i: int) {
    0 <= i < |keys| && accept(Field(o, keys[i])).Some? &&
    forall j :: 0 <= j < i ==> accept(Field(o, keys[j])).None?
  }

  /**
   * The picked value is the one at the earliest accepted key, every key before
   * it is skipped, and nothing is picked exactly when no key is accepted.
   */
  lemma {:induction false} FirstOfEarliest<T>(o: Offer, keys: seq<string>, accept: Option<Value> -> Option<T>)
    ensures FirstOf(o, keys, accept).None? <==> forall i :: 0 <= i < |keys| ==> accept(Field(o, keys[i])).None?
    ensures forall i :: EarliestAt(o, keys, accept, i) ==> FirstOf(o, keys, accept) == accept(Field(o, keys[i]))
    ensures FirstOf(o, keys, accept).Some? ==> exists i :: EarliestAt(o, keys, accept, i)
    decreases |keys|
  {
    if keys != [] {
      var rest := keys[1..];
      FirstOfEarliest(o, rest, accept);
      assert forall i :: 0 <= i < |rest| ==> rest[i] == keys[i + 1];
      if accept(Field(o, keys[0])).Some? {
        assert EarliestAt(o, keys, accept, 0);
      } else {
        forall i | EarliestAt(o, keys, accept, i)
          ensures FirstOf(o, keys, accept) == accept(Field(o, keys[i]))
        {
          assert i > 0;
          assert EarliestAt(o, rest, accept, i - 1);
        }
        if FirstOf(o, keys, accept).Some? {
          var i :| EarliestAt(o, rest, accept, i);
          assert EarliestAt(o, keys, accept, i + 1);
        }
      }
    }
  }

  /** Skipping a key that is not accepted does not change the pick. */
  lemma FirstOfSkip<T>(o: Offer, keys: seq<string>, i: nat, accept: Option<Value> -> Option<T>)
    requires i < |keys| && accept(Field(o, keys[i])).None?
    ensures FirstOf(o, keys[i..], accept) == FirstOf(o, keys[i + 1..], accept)
  {
    assert keys[i..][1..] == keys[i + 1..];
  }

  /** `pickString(o, keys)`. */
  method PickString(o: Offer, keys: seq<string>) returns (r: Option<string>)
    ensures r == FirstOf(o, keys, AsText)
  {
    for i := 0 to |keys|
      invariant FirstOf(o, keys[i..], AsText) == FirstOf(o, keys, AsText)
    {
      var v := Field(o, keys[i]);
      if v.Some? && v.value.Str? && Trim(v.value.s) != [] {
        return Some(v.value.s);
      }
      FirstOfSkip(o, keys, i, AsText);
    }
    return None;
  }

  /** `pickNumber(o, keys)`. */
  method PickNumber(o: Offer, keys: seq<string>) returns (r: Option<real>)
    ensures r == FirstOf(o, keys, AsNumber)
  {
    for i := 0 to |keys|
      invariant FirstOf(o, keys[i..], AsNumber) == FirstOf(o, keys, AsNumber)
    {
      var v := Field(o, keys[i]);
      if v.Some? && v.value.Num? {
        return Some(v.value.x);
      }
      if v.Some? && v.value.Str? {
        var n := ParseNumeric(v.value.s);
        if n.Some? {
          return n;
        }
      }
      FirstOfSkip(o, keys, i, AsNumber);
    }
    return None;
  }

  /** `pickDateISO(o, keys)`. */
  method PickDateISO(o: Offer, keys: seq<string>) returns (r: Option<string>)
    ensures r == FirstOf(o, keys, AsDate)
  {
    for i := 0 to |keys|
      invariant FirstOf(o, keys[i..], AsDate) == FirstOf(o, keys, AsDate)
    {
      var v := Field(o, keys[i]);
      if v.Some? && v.value.Str? && HasDatePattern(v.value.s) {
        return Some(v.value.s);
      }
      FirstOfSkip(o, keys, i, AsDate);
    }
    return None;
  }

  /**
   * A picked string is the field's own string, untrimmed, whose trim is not
   * empty; a string of white space only is skipped like a missing field.
   */
  lemma PickedTextUntrimmed(o: Offer, keys: seq<string>)
    ensures FirstOf(o, keys, AsText).Some? ==>
      exists i :: 0 <= i < |keys| && Field(o, keys[i]) == Some(Str(FirstOf(o, keys, AsText).value)) &&
                  Trim(FirstOf(o, keys, AsText).value) != []
  {
    FirstOfEarliest(o, keys, AsText);
  }

  /** `pickNumber` reads numbers and numeric strings and nothing else; NaN is skipped. */
  lemma AsNumberCases(v: Option<Value>)
    ensures v == Some(NaN) ==> AsNumber(v) == None
    ensures v.Some? && v.value.Num? ==> AsNumber(v) == Some(v.value.x)
    ensures v.Some? && v.value.Str? ==> (AsNumber(v).Some? <==> HasDigit(v.value.s))
    ensures v.None? || (v.Some? && (v.value.Bool? || v.value.Null? || v.value.Other?)) ==> AsNumber(v) == None
  {
    if v.Some? && v.value.Str? {
      ParseNumericDefined(v.value.s);
    }
  }

  /** A field that holds a number, or a string with a digit in it. */
  predicate Numeric(v: Option<Value>) {
    v.Some? && (v.value.Num? || (v.value.Str? && HasDigit(v.value.s)))
  }

  /** A number field after fields that are not numeric is the one picked. */
  lemma PickedNumberEarliest(o: Offer, keys: seq<string>, i: nat)
    requires i < |keys|
    requires forall j :: 0 <= j < i ==> !Numeric(Field(o, keys[j]))
    requires Field(o, keys[i]).Some? && Field(o, keys[i]).value.Num?
    ensures FirstOf(o, keys, AsNumber) == Some(Field(o, keys[i]).value.x)
  {
    forall j | 0 <= j < i ensures AsNumber(Field(o, keys[j])).None? {
      AsNumberCases(Field(o, keys[j]));
    }
    assert EarliestAt(o, keys, AsNumber, i);
    FirstOfEarliest(o, keys, AsNumber);
  }

  /** A picked date is a field's string, unchanged, that contains a `dddd-dd-dd` run. */
  lemma PickedDateUnchanged(o: Offer, keys: seq<string>)
    ensures FirstOf(o, keys, AsDate).Some? ==>
      HasDatePattern(FirstOf(o, keys, AsDate).value) &&
      exists i :: 0 <= i < |keys| && Field(o, keys[i]) == Some(Str(FirstOf(o, keys, AsDate).value))
  {
    FirstOfEarliest(o, keys, AsDate);
  }

  /** A picked date is at least ten characters long. */
  lemma PickedDateLength(o: Offer, keys: seq<string>)
    ensures FirstOf(o, keys, AsDate).Some? ==> |FirstOf(o, keys, AsDate).value| >= 10
  {
    PickedDateUnchanged(o, keys);
  }
}
