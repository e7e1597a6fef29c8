/**
 * Small helpers shared by the room-booking model: optional values for the
 * loosely-typed request fields, results for the handlers' error responses,
 * JavaScript truthiness of a request field, and the first-match search
 * that `Array.prototype.find` performs.
 */
module Common {

  datatype Option<+T> = None | Some(value: T)

  datatype Result<+R, +E> = Success(value: R) | Failure(error: E)

  /** A string field is truthy in JavaScript unless it is missing or "". */
  predicate TruthyString(field: Option<string>) {
    field.Some? && field.value != ""
  }

  /** A numeric field is truthy in JavaScript unless it is missing or 0. */
  predicate TruthyNumber(field: Option<int>) {
    field.Some? && field.value != 0
  }

  /** An array field is truthy whenever it is present, even when it is empty. */
  predicate TruthyList<T>(field: Option<seq<T>>) {
    field.Some?
  }

  /**
   * The linear scan behind `find`: the index of the first element of `s`
   * that satisfies `p`, or None when no element does.
   */
  method Find<T>(s: seq<T>, p: T -> bool) returns (k: Option<nat>)
    ensures k.Some? ==> k.value < |s| && p(s[k.value])
    ensures k.Some? ==> forall j :: 0 <= j < k.value ==> !p(s[j])
    ensures k.None? ==> forall j :: 0 <= j < |s| ==> !p(s[j])
  {
    var i := 0;
    while i < |s|
      invariant 0 <= i <= |s|
      invariant forall j :: 0 <= j < i ==> !p(s[j])
    {
      if p(s[i]) {
        return Some(i);
      }
      i := i + 1;
    }
    return None;
  }
}
