/** The greatest number of a set, if it has any. */
module Sizes {
  import opened Wrappers

  ghost predicate IsGreatest(number: Option<nat>, numbers: set<nat>) {
    match number
    case None => numbers == {}
    case Some(greatest) => greatest in numbers && forall other :: other in numbers ==> other <= greatest
  }

  function Greater(number: Option<nat>, other: nat): Option<nat> {
    if number.None? || number.value < other then Some(other) else number
  }

  lemma GreatestWith(number: Option<nat>, numbers: set<nat>, other: nat)
    requires IsGreatest(number, numbers)
    ensures IsGreatest(Greater(number, other), numbers + {other})
  {
  }

  lemma GreatestExists(numbers: set<nat>) returns (number: Option<nat>)
    ensures IsGreatest(number, numbers)
    decreases numbers
  {
    if numbers == {} {
      number := None;
    } else {
      var one :| one in numbers;
      var rest := GreatestExists(numbers - {one});
      GreatestWith(rest, numbers - {one}, one);
      assert numbers - {one} + {one} == numbers;
      number := Greater(rest, one);
    }
  }

  ghost function Greatest(numbers: set<nat>): (number: Option<nat>)
    ensures IsGreatest(number, numbers)
  {
    assert exists number :: IsGreatest(number, numbers) by {
      var some := GreatestExists(numbers);
    }
    var number :| IsGreatest(number, numbers);
    number
  }
}
