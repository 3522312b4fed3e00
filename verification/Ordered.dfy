/** Distinct numbers in ascending order: what sorting a set gives. */
module Ordered {

  predicate Ascending(numbers: seq<real>) {
    forall i, j :: 0 <= i < j < |numbers| ==> numbers[i] < numbers[j]
  }

  lemma PrependAscends(first: real, rest: seq<real>)
    requires Ascending(rest) && forall x :: x in rest ==> first < x
    ensures Ascending([first] + rest)
  {
    forall i, j | 0 <= i < j < |rest| + 1
      ensures ([first] + rest)[i] < ([first] + rest)[j]
    {
      assert ([first] + rest)[j] == rest[j - 1] && rest[j - 1] in rest;
      if i > 0 { assert ([first] + rest)[i] == rest[i - 1]; }
    }
  }

  function Insert(number: real, numbers: seq<real>): (r: seq<real>)
    requires Ascending(numbers)
    ensures Ascending(r)
    ensures forall x :: x in r <==> x == number || x in numbers
  {
    if numbers == [] || number < numbers[0] then
      PrependAscends(number, numbers);
      [number] + numbers
    else if number == numbers[0] then numbers
    else
      var rest := Insert(number, numbers[1..]);
      assert numbers == [numbers[0]] + numbers[1..];
      PrependAscends(numbers[0], rest);
      [numbers[0]] + rest
  }
}
