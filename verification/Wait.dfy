/** The polling loop in front of the database container (cmd/internal/wait/wait.go). */
module Wait {
  import opened StatusWord

  /** What one turn of the loop meets: the stop signal, a failing request, or an answer. */
  datatype Turn = StopSignalled | RequestFailed | Answered(status: Status)
  datatype Result = GoAhead | Stopped | StillWaiting

  /** The loop over any course of events; n is the turn it ends with. It goes ahead exactly on the first turn
      answered with DONE, unless the stop signal comes before. */
  method Start(turns: seq<Turn>) returns (r: Result, n: nat)
    ensures n <= |turns| && forall k :: 0 <= k < n ==> !turns[k].StopSignalled? && turns[k] != Answered(DONE)
    ensures r == StillWaiting <==> n == |turns|
    ensures r == Stopped <==> n < |turns| && turns[n] == StopSignalled
    ensures r == GoAhead <==> n < |turns| && turns[n] == Answered(DONE)
  {
    n := 0;
    while n < |turns|
      invariant n <= |turns| && forall k :: 0 <= k < n ==> !turns[k].StopSignalled? && turns[k] != Answered(DONE)
    {
      match turns[n] {
        case StopSignalled =>
          return Stopped, n;
        case RequestFailed =>
        case Answered(status) =>
          if status == DONE {
            return GoAhead, n;
          }
      }
      n := n + 1;
    }
    r := StillWaiting;
  }
}
