/** Shared data types, and joining sequences. */
module Structures {
  datatype Option<+T> = None | Some(value: T)

  // One parking lot's record, all fields text.
  datatype ParkingLot = ParkingLot(
    locationCode: string,
    lotNo: string,
    lpn: string,
    lotInImagePath: string,
    lotOutImagePath: string,
    lotInDt: string,
    lotOutDt: string,
    addDt: string,
    updateDt: string,
    lotInCentralSentDt: string,
    lotOutCentralSentDt: string)

  lemma Assoc<T>(a: seq<T>, b: seq<T>, c: seq<T>)
    ensures (a + b) + c == a + (b + c)
  {
  }
}
