/**
 Fairness of select_buffer over any interleaving of calls and of messages and
 responses being queued.
 */
module Selection {
  import opened Sequences
  import opened TileLinkMsg
  import opened EndpointSpec

  datatype Event = QueueResponse(m: TlMsg) | QueueMessage(m: TlMsg) | Call

  /** The state, what was queued at and taken from each source, and how many calls in a
      row have just passed over each source while it was not empty. */
  datatype Trace = Trace(
    e: EndpointState,
    responsesIn: seq<TlMsg>, responsesOut: seq<TlMsg>, responsesPassed: nat,
    messagesIn: seq<TlMsg>, messagesOut: seq<TlMsg>, messagesPassed: nat)

  function Started(e: EndpointState): Trace {
    Trace(e, e.responses, [], 0, e.messages, [], 0)
  }

  /** One call: the request came from the source whose queue got shorter. */
  function AfterCall(t: Trace): Trace {
    var r := EndpointSpec.Select(t.e);
    var fromResponses := |r.state.responses| < |t.e.responses|;
    var fromMessages := |r.state.messages| < |t.e.messages|;
    t.(e := r.state,
       responsesOut := if fromResponses && r.request.Some? then t.responsesOut + [r.request.value] else t.responsesOut,
       messagesOut := if fromMessages && r.request.Some? then t.messagesOut + [r.request.value] else t.messagesOut,
       responsesPassed := if t.e.responses != [] && !fromResponses then t.responsesPassed + 1 else 0,
       messagesPassed := if t.e.messages != [] && !fromMessages then t.messagesPassed + 1 else 0)
  }

  function After(t: Trace, events: seq<Event>): Trace {
    if events == [] then t
    else
      var u := After(t, events[..|events| - 1]);
      match events[|events| - 1]
      case QueueResponse(m) => u.(e := u.e.(responses := u.e.responses + [m]), responsesIn := u.responsesIn + [m])
      case QueueMessage(m) => u.(e := u.e.(messages := u.e.messages + [m]), messagesIn := u.messagesIn + [m])
      case Call => AfterCall(u)
  }

  ghost predicate FairSoFar(t: Trace) {
    && t.responsesIn == t.responsesOut + t.e.responses
    && t.messagesIn == t.messagesOut + t.e.messages
    && 1 <= t.e.turns <= BUFFER_SELECT_TURNS
    && t.messagesPassed <= BUFFER_SELECT_TURNS - t.e.turns
    && t.responsesPassed <= (if t.e.turns == BUFFER_SELECT_TURNS then 1 else 0)
  }

  lemma CallKeepsFair(t: Trace)
    requires FairSoFar(t)
    ensures FairSoFar(AfterCall(t))
  {
    TakeFirst(t.responsesOut, t.e.responses);
    TakeFirst(t.messagesOut, t.e.messages);
  }

  /** Over any sequence of events each source is served first in, first out; a non-empty
      message queue is passed over at most three times in a row, and a non-empty
      response queue at most once. */
  lemma {:induction false} SelectionIsFair(e: EndpointState, events: seq<Event>)
    requires e.turns == BUFFER_SELECT_TURNS
    ensures var t := After(Started(e), events);
            && FairSoFar(t)
            && t.responsesOut <= t.responsesIn && t.messagesOut <= t.messagesIn
            && t.messagesPassed <= 3 && t.responsesPassed <= 1
  {
    if events != [] {
      var front := events[..|events| - 1];
      SelectionIsFair(e, front);
      CallKeepsFair(After(Started(e), front));
    }
  }
}
