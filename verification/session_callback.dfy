/** `SessionRequestCallback`: the reactor's report on one connect attempt. */
module SessionCallback {

  /** The four callbacks of the HttpCore interface. */
  datatype Outcome = Completed | Cancelled | Failed | TimedOut

  /** Whether the callback for `o` calls `count_down()`: every outcome but a
      completed connect does, once. */
  function CountsDown(o: Outcome): (r: bool)
    ensures r <==> o != Completed
  {
    match o
    case Completed => false
    case Cancelled => true
    case Failed => true
    case TimedOut => true
  }
}
