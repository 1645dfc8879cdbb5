// Player positions and the integer position code of the league's player records.

module Positions {
  import opened Base

  datatype Position = GK | DEF | MID | FWD

  /**
   * The position map: element type 1, 2, 3, 4 is GK, DEF, MID, FWD; any other
   * code has no position (pandas `map` leaves NaN there).
   */
  function PositionOf(elementType: int): (p: Option<Position>)
    ensures p.Some? <==> 1 <= elementType <= 4
    ensures p == Some(GK) <==> elementType == 1
    ensures p == Some(DEF) <==> elementType == 2
    ensures p == Some(MID) <==> elementType == 3
    ensures p == Some(FWD) <==> elementType == 4
  {
    if elementType == 1 then Some(GK)
    else if elementType == 2 then Some(DEF)
    else if elementType == 3 then Some(MID)
    else if elementType == 4 then Some(FWD)
    else None
  }
}
