/** Timed event traces shared by the two throttling middlewares.
    Both read the clock while holding their mutex, so the events of one
    middleware form a single sequence with non-decreasing times. */
module Traces {

  /** A request made under some key (an address, or a user id), or one janitor pass. */
  datatype Event = Request(key: string, at: real) | Cleanup(at: real)

  /** What the middleware does with one event. A janitor pass has no verdict. */
  datatype Verdict = Admitted | Rejected | NoRequest

  ghost predicate Monotone(trace: seq<Event>)
  {
    forall i, j :: 0 <= i < j < |trace| ==> trace[i].at <= trace[j].at
  }

  /** Event `i` of the trace is a request under `key`. */
  predicate RequestOf(trace: seq<Event>, key: string, i: int)
  {
    0 <= i < |trace| && trace[i].Request? && trace[i].key == key
  }
}
