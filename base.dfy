/** Small shared vocabulary: an optional value and the "first row that matches" scan. */
module Base {

  datatype Option<T> = None | Some(value: T)

  /** Index of the first element of `s` satisfying `p`. This is what a
      `SELECT ... LIMIT 1` over rows kept in insertion order returns, and what
      a `for (const it of items) if (...) return` scan stops at. */
  function FirstWhere<T>(s: seq<T>, p: T -> bool): (r: Option<nat>)
    ensures r.Some? ==> r.value < |s| && p(s[r.value])
    ensures r.Some? ==> forall j :: 0 <= j < r.value ==> !p(s[j])
    ensures r.None? <==> forall j :: 0 <= j < |s| ==> !p(s[j])
  {
    if s == [] then None
    else if p(s[0]) then Some(0)
    else match FirstWhere(s[1..], p)
      case None => None
      case Some(i) => Some(i + 1)
  }
}
