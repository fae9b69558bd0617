/**
 * The notification source: `streamNotifyOnce` reads websocket messages and
 * sends one notification per message until a read fails; `streamNotify`
 * calls it again and again, pausing one second after each attempt that
 * returned an error. The dial, the ping ticker, the pong handler and the
 * read deadlines are replaced by what each read observed, as a `Read`.
 */
module NotifySource {

  /** What one pass of the read loop of `streamNotifyOnce` observes. */
  datatype Read =
    | Message    // ReadMessage returned a message
    | ReadError  // ReadMessage failed (a closed connection or an expired deadline)
    | Cancelled  // the context was done at the loop head

  /** One call of `streamNotifyOnce`: the dial failed, or it succeeded and these reads followed. */
  datatype Connection = DialFailed | Dialed(observed: seq<Read>)

  /** How a call of `streamNotifyOnce` ended: an error, nil, or still reading when the run ends. */
  datatype Outcome = Failed | Returned | Reading

  /** The number of messages read before the first read that is not a message. */
  function MessagesRead(observed: seq<Read>): (n: nat)
    ensures n <= |observed|
    ensures forall k :: 0 <= k < n ==> observed[k] == Message
    ensures n < |observed| ==> observed[n] != Message
  {
    if observed == [] || observed[0] != Message then 0 else 1 + MessagesRead(observed[1..])
  }

  /** The number of notifications one call of `streamNotifyOnce` sends. */
  function Notifications(c: Connection): nat {
    if c.DialFailed? then 0 else MessagesRead(c.observed)
  }

  /** How one call of `streamNotifyOnce` ends. */
  function OutcomeOf(c: Connection): Outcome {
    match c
    case DialFailed => Failed
    case Dialed(observed) =>
      var n := MessagesRead(observed);
      if n == |observed| then Reading
      else if observed[n] == ReadError then Failed
      else Returned
  }

  /** The notifications sent by a run of calls of `streamNotifyOnce`. */
  function TotalNotifications(cs: seq<Connection>): nat {
    if cs == [] then 0 else TotalNotifications(cs[..|cs| - 1]) + Notifications(cs[|cs| - 1])
  }

  /**
   * `streamNotifyOnce`: a failed dial is an error and sends nothing;
   * otherwise one notification is sent per message, and the call returns
   * the first read error, or nil once the context is done.
   */
  method NotifyOnce(c: Connection) returns (notified: nat, outcome: Outcome)
    ensures c.DialFailed? ==> notified == 0 && outcome == Failed
    ensures c.Dialed? ==> notified == MessagesRead(c.observed) && notified <= |c.observed|
    ensures c.Dialed? && notified < |c.observed| ==>
      outcome == (if c.observed[notified] == ReadError then Failed else Returned)
    ensures c.Dialed? && notified == |c.observed| ==> outcome == Reading
  {
    if c.DialFailed? {
      return 0, Failed;
    }
    var observed := c.observed;
    notified := 0;
    while notified < |observed|
      invariant notified <= |observed|
      invariant forall k :: 0 <= k < notified ==> observed[k] == Message
    {
      match observed[notified] {
        case Cancelled =>
          return notified, Returned;
        case ReadError =>
          return notified, Failed;
        case Message =>
          notified := notified + 1;  // ch <- true
      }
    }
    outcome := Reading;
  }

  /**
   * `streamNotify` over a run of calls of `streamNotifyOnce`: it pauses
   * after exactly those calls that returned an error and goes on with the
   * next one; a call that returned nil (the context is done) ends the loop,
   * and so does one still reading when the run ends.
   */
  method StreamNotify(cs: seq<Connection>) returns (notified: nat, pausedAfter: seq<bool>)
    ensures |pausedAfter| <= |cs|
    ensures forall k :: 0 <= k < |pausedAfter| ==> pausedAfter[k] == (OutcomeOf(cs[k]) == Failed)
    ensures forall k :: 0 <= k < |pausedAfter| - 1 ==> OutcomeOf(cs[k]) == Failed
    ensures |pausedAfter| < |cs| ==> |pausedAfter| > 0 && OutcomeOf(cs[|pausedAfter| - 1]) != Failed
    ensures notified == TotalNotifications(cs[..|pausedAfter|])
  {
    notified, pausedAfter := 0, [];
    var i := 0;
    var done := false;
    while i < |cs| && !done
      invariant i <= |cs| && |pausedAfter| == i
      invariant forall k :: 0 <= k < i ==> pausedAfter[k] == (OutcomeOf(cs[k]) == Failed)
      invariant forall k :: 0 <= k < i - 1 ==> OutcomeOf(cs[k]) == Failed
      invariant done <==> (i > 0 && OutcomeOf(cs[i - 1]) != Failed)
      invariant notified == TotalNotifications(cs[..i])
    {
      var n, outcome := NotifyOnce(cs[i]);
      assert n == Notifications(cs[i]) && outcome == OutcomeOf(cs[i]);
      notified := notified + n;
      // time.Sleep(time.Second) after an error
      pausedAfter := pausedAfter + [outcome == Failed];
      done := outcome != Failed;
      assert cs[..i + 1][..i] == cs[..i];
      i := i + 1;
    }
  }
}
