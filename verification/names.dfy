/** The "scan the constants in declaration order and return the first whose type name
    equals the given string, else null" search that the Size and Transition enums share. */
module Names {
  import opened Exceptions

  /** First element of `values` whose name is exactly `name`, or None. */
  function FindByName<T>(values: seq<T>, nameOf: T -> string, name: string): (r: Option<T>)
    ensures r.Some? ==> r.value in values && nameOf(r.value) == name
    ensures r.None? <==> forall i :: 0 <= i < |values| ==> nameOf(values[i]) != name
    ensures r.Some? ==> exists i :: 0 <= i < |values| && values[i] == r.value &&
                          forall j :: 0 <= j < i ==> nameOf(values[j]) != name
  {
    if |values| == 0 then None
    else if nameOf(values[0]) == name then Some(values[0])
    else
      var rest := FindByName(values[1..], nameOf, name);
      assert forall i :: 1 <= i < |values| ==> values[i] == values[1..][i - 1];
      rest
  }

  /** When the names of `values` are pairwise distinct, looking up the name of a member
      gives back that member. */
  lemma {:induction false} FindOwnName<T>(values: seq<T>, nameOf: T -> string, v: T)
    requires v in values
    requires forall i, j :: 0 <= i < j < |values| ==> nameOf(values[i]) != nameOf(values[j])
    ensures FindByName(values, nameOf, nameOf(v)) == Some(v)
  {
    var r := FindByName(values, nameOf, nameOf(v));
    var k :| 0 <= k < |values| && values[k] == v;
    assert r.Some?;
    var i :| 0 <= i < |values| && values[i] == r.value &&
             forall j :: 0 <= j < i ==> nameOf(values[j]) != nameOf(v);
    assert i == k;
  }
}
