/** The fixed New England capitals data of frontend/src/services/capitalsService.ts. */
module Capitals {

  /** `Capital`: a record id, the capital city and its state. */
  datatype Capital = Capital(id: int, capital: string, state: string)

  /** `capitalsData`, in source order. */
  const CapitalsData: seq<Capital> := [
    Capital(1, "Augusta", "Maine"),
    Capital(2, "Concord", "New Hampshire"),
    Capital(3, "Montpelier", "Vermont"),
    Capital(4, "Boston", "Massachusetts"),
    Capital(5, "Providence", "Rhode Island"),
    Capital(6, "Hartford", "Connecticut")
  ]

  /** `getCapitals`: a new array holding a copy of the records, so a caller that changes
      the array leaves `capitalsData` as it was. */
  method GetCapitals() returns (copy: array<Capital>)
    ensures fresh(copy)
    ensures copy[..] == CapitalsData
  {
    copy := new Capital[|CapitalsData|](i requires 0 <= i < |CapitalsData| => CapitalsData[i]);
  }

  /** Six records with ids 1 to 6 in order (hence pairwise distinct) and pairwise distinct states. */
  lemma DataShape()
    ensures |CapitalsData| == 6
    ensures forall i :: 0 <= i < |CapitalsData| ==> CapitalsData[i].id == i + 1
    ensures forall i, j :: 0 <= i < j < |CapitalsData| ==> CapitalsData[i].id != CapitalsData[j].id
    ensures forall i, j :: 0 <= i < j < |CapitalsData| ==> CapitalsData[i].state != CapitalsData[j].state
  {
  }
}
