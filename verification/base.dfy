/** Small building blocks shared by every module: an optional value, JavaScript's
    `||` on request strings, and the "first document that matches" search that the
    store's `findOne` performs over a collection in natural (insertion) order. */
module Base {

  datatype Option<+T> = None | Some(value: T)

  /** A request string is falsy in JavaScript when it is absent (undefined/null)
      or empty. */
  predicate Falsy(o: Option<string>) {
    o.None? || o.value == ""
  }

  /** JavaScript's `o || fallback` for a request string. */
  function Or(o: Option<string>, fallback: string): (r: string)
    ensures !Falsy(o) ==> r == o.value
    ensures Falsy(o) ==> r == fallback
  {
    if Falsy(o) then fallback else o.value
  }

  /** The position of the first element of `s` that satisfies `p`, if any. */
  function FindFirst<T>(s: seq<T>, p: T -> bool): (r: Option<nat>)
    ensures r.Some? ==> r.value < |s| && p(s[r.value])
    ensures r.Some? ==> forall j :: 0 <= j < r.value ==> !p(s[j])
    ensures r.None? <==> forall j :: 0 <= j < |s| ==> !p(s[j])
  {
    if s == [] then None
    else if p(s[0]) then Some(0)
    else match FindFirst(s[1..], p)
      case None =>
        assert forall j :: 1 <= j < |s| ==> s[j] == s[1..][j - 1];
        None
      case Some(i) =>
        assert forall j :: 1 <= j <= i ==> s[j] == s[1..][j - 1];
        Some(i + 1)
  }
}
