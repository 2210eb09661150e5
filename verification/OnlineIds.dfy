/** User names as the system stores them: at most sixteen characters. */
module OnlineIds {
  import opened Widths

  const ONLINE_ID_LENGTH: nat := 16

  /** The name, or its first sixteen characters. */
  function OnlineId(npid: seq<u8>): (id: seq<u8>)
    ensures id <= npid && |id| <= ONLINE_ID_LENGTH
    ensures |npid| <= ONLINE_ID_LENGTH ==> id == npid
    ensures |npid| > ONLINE_ID_LENGTH ==> |id| == ONLINE_ID_LENGTH
  {
    if |npid| <= ONLINE_ID_LENGTH then npid else npid[..ONLINE_ID_LENGTH]
  }
}
