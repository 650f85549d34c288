/**
  Publishing a newsletter from the admin form: read the confirmed
  subscribers, turn each stored address into a subscriber or an error,
  then send the form's content to every valid one in order, skipping the
  invalid ones and stopping at the first send that fails.

  The address check and the mail provider are parameters: a predicate on
  the stored string and the provider's answer for each recipient.
 */
module Newsletters {
  import opened Wrappers
  import opened EmailClient
  import opened Http

  datatype BodyData = BodyData(title: string, htmlContent: string, textContent: string)

  datatype ConfirmedSubscriber = ConfirmedSubscriber(email: string)

  /** A failure of the query on the subscriptions table. */
  datatype QueryError = QueryError(message: string)

  type Parsed = Result<ConfirmedSubscriber, string>

  const PUBLISHED_FLASH := FlashMessage(Info, "The newsletter issue has been published!")
  const NEWSLETTERS_PAGE := "/admin/newsletters"

  /** One stored row: a subscriber when the address parses, else an error that names it. */
  function ParseRow(email: string, isValidEmail: string -> bool): (r: Parsed)
    ensures r.Ok? <==> isValidEmail(email)
    ensures r.Ok? ==> r.value.email == email
    ensures r.Err? ==> r.error == email
  {
    if isValidEmail(email) then Ok(ConfirmedSubscriber(email)) else Err(email)
  }

  /** The map over the stored rows: one result per row, in order. */
  function ParseRows(emails: seq<string>, isValidEmail: string -> bool): (r: seq<Parsed>)
    ensures |r| == |emails|
    ensures forall i :: 0 <= i < |emails| ==> r[i] == ParseRow(emails[i], isValidEmail)
  {
    if emails == [] then []
    else [ParseRow(emails[0], isValidEmail)] + ParseRows(emails[1..], isValidEmail)
  }

  /** get_confirmed_subscriber: the query's failure, or one parse result per stored row. */
  function GetConfirmedSubscriber(stored: Result<seq<string>, QueryError>, isValidEmail: string -> bool)
    : (r: Result<seq<Parsed>, QueryError>)
    ensures r.Err? <==> stored.Err?
    ensures r.Err? ==> r.error == stored.error
    ensures r.Ok? ==> |r.value| == |stored.value|
    ensures r.Ok? ==> forall i :: 0 <= i < |r.value| ==>
      (r.value[i].Ok? <==> isValidEmail(stored.value[i])) &&
      (r.value[i].Ok? ==> r.value[i].value.email == stored.value[i])
  {
    match stored
    case Err(e) => Err(e)
    case Ok(emails) => Ok(ParseRows(emails, isValidEmail))
  }

  /** The addresses of the valid entries, in order. */
  function ValidRecipients(subscribers: seq<Parsed>): (r: seq<string>)
    ensures |r| <= |subscribers|
  {
    if subscribers == [] then []
    else match subscribers[0]
      case Ok(s) => [s.email] + ValidRecipients(subscribers[1..])
      case Err(_) => ValidRecipients(subscribers[1..])
  }

  /** The message every subscriber receives: the form's title and bodies. */
  function IssueFor(recipient: string, form: BodyData): EmailMessage {
    EmailMessage(recipient, form.title, form.htmlContent, form.textContent)
  }

  /** The sends the loop makes, and the recipient of the send that failed, if one did. */
  datatype Dispatch = Dispatch(sent: seq<EmailMessage>, failed: Option<string>)

  /**
    The subscriber loop as a function: invalid entries are skipped, valid
    ones are sent to in order, the first failure ends the loop.
   */
  function DispatchAll(subscribers: seq<Parsed>, form: BodyData, sendSucceeds: string -> bool): (d: Dispatch)
    ensures |d.sent| <= |ValidRecipients(subscribers)|
    ensures d.failed.Some? ==> d.sent != [] && d.sent[|d.sent| - 1].recipient == d.failed.value
  {
    if subscribers == [] then Dispatch([], None)
    else match subscribers[0]
      case Err(_) => DispatchAll(subscribers[1..], form, sendSucceeds)
      case Ok(s) =>
        if sendSucceeds(s.email) then
          var rest := DispatchAll(subscribers[1..], form, sendSucceeds);
          Dispatch([IssueFor(s.email, form)] + rest.sent, rest.failed)
        else Dispatch([IssueFor(s.email, form)], Some(s.email))
  }

  /**
    The sends go to a prefix of the valid recipients, in order, each with
    the form's title and bodies. Without a failure that prefix is all of
    them and every send succeeded; with one, the failed send is the last
    send made and every earlier one succeeded.
   */
  lemma {:induction false} DispatchSendsValidPrefix(subscribers: seq<Parsed>, form: BodyData, sendSucceeds: string -> bool)
    ensures var d, valid := DispatchAll(subscribers, form, sendSucceeds), ValidRecipients(subscribers);
      && |d.sent| <= |valid|
      && (forall j :: 0 <= j < |d.sent| ==> d.sent[j] == IssueFor(valid[j], form))
      && (d.failed.None? ==> |d.sent| == |valid| && forall j :: 0 <= j < |valid| ==> sendSucceeds(valid[j]))
      && (d.failed.Some? ==>
            && 0 < |d.sent|
            && d.failed.value == valid[|d.sent| - 1]
            && !sendSucceeds(d.failed.value)
            && (forall j :: 0 <= j < |d.sent| - 1 ==> sendSucceeds(valid[j])))
  {
    if subscribers != [] {
      DispatchSendsValidPrefix(subscribers[1..], form, sendSucceeds);
    }
  }

  /** Every message the loop sends goes to a valid entry: invalid ones cause no send. */
  lemma {:induction false} NoSendToInvalid(subscribers: seq<Parsed>, form: BodyData, sendSucceeds: string -> bool)
    ensures forall m :: m in DispatchAll(subscribers, form, sendSucceeds).sent ==>
      exists i :: 0 <= i < |subscribers| && subscribers[i] == Ok(ConfirmedSubscriber(m.recipient))
  {
    if subscribers != [] {
      NoSendToInvalid(subscribers[1..], form, sendSucceeds);
      var d := DispatchAll(subscribers, form, sendSucceeds);
      forall m | m in d.sent
        ensures exists i :: 0 <= i < |subscribers| && subscribers[i] == Ok(ConfirmedSubscriber(m.recipient))
      {
        var rest := DispatchAll(subscribers[1..], form, sendSucceeds);
        if m in rest.sent && (subscribers[0].Err? || sendSucceeds(subscribers[0].value.email)) {
          var i :| 0 <= i < |subscribers[1..]| && subscribers[1..][i] == Ok(ConfirmedSubscriber(m.recipient));
          assert subscribers[i + 1] == Ok(ConfirmedSubscriber(m.recipient));
        } else {
          assert subscribers[0] == Ok(ConfirmedSubscriber(m.recipient));
        }
      }
    }
  }

  /** What publish_newsletter answers, and which sends it made. */
  datatype Publication = Publication(
    response: Result<HttpResponse, HandlerError>,
    flash: Option<FlashMessage>,
    sent: seq<EmailMessage>)

  function SendFailure(email: string): HandlerError {
    InternalServerError("Failed to send newsletter issue to " + email)
  }

  /** publish_newsletter as a function of the stored rows and the provider's answers. */
  function Publish(
    stored: Result<seq<string>, QueryError>, isValidEmail: string -> bool,
    form: BodyData, sendSucceeds: string -> bool): (p: Publication)
    ensures stored.Err? ==> p == Publication(Err(InternalServerError(stored.error.message)), None, [])
    ensures p.response.Ok? ==> p.response.value == SeeOther(NEWSLETTERS_PAGE) && p.flash == Some(PUBLISHED_FLASH)
    ensures p.response.Err? ==> p.flash.None?
    // on a successful query: the loop's sends, and a 500 naming the recipient exactly when a send failed
    ensures stored.Ok? ==>
      var d := DispatchAll(ParseRows(stored.value, isValidEmail), form, sendSucceeds);
      && p.sent == d.sent
      && (p.response.Err? <==> d.failed.Some?)
      && (d.failed.Some? ==> p.response == Err(SendFailure(d.failed.value)))
  {
    match GetConfirmedSubscriber(stored, isValidEmail)
    case Err(e) => Publication(Err(InternalServerError(e.message)), None, [])
    case Ok(subscribers) =>
      var d := DispatchAll(subscribers, form, sendSucceeds);
      match d.failed
      case Some(email) => Publication(Err(SendFailure(email)), None, d.sent)
      case None => Publication(Ok(SeeOther(NEWSLETTERS_PAGE)), Some(PUBLISHED_FLASH), d.sent)
  }

  /**
    publish_newsletter: the loop over the parsed subscribers, returning
    early (a 500) at the first failed send.
   */
  method PublishNewsletter(
    stored: Result<seq<string>, QueryError>, isValidEmail: string -> bool,
    form: BodyData, sendSucceeds: string -> bool)
    returns (response: Result<HttpResponse, HandlerError>, flash: Option<FlashMessage>, sent: seq<EmailMessage>)
    ensures Publication(response, flash, sent) == Publish(stored, isValidEmail, form, sendSucceeds)
  {
    var subscribers := GetConfirmedSubscriber(stored, isValidEmail);
    if subscribers.Err? {
      return Err(InternalServerError(subscribers.error.message)), None, [];
    }
    var all := subscribers.value;
    sent := [];
    var i := 0;
    while i < |all|
      invariant 0 <= i <= |all|
      invariant DispatchAll(all, form, sendSucceeds).sent == sent + DispatchAll(all[i..], form, sendSucceeds).sent
      invariant DispatchAll(all, form, sendSucceeds).failed == DispatchAll(all[i..], form, sendSucceeds).failed
    {
      assert all[i..][1..] == all[i + 1..];
      ghost var rest := DispatchAll(all[i + 1..], form, sendSucceeds);
      match all[i] {
        case Ok(subscriber) =>
          var message := IssueFor(subscriber.email, form);
          sent := sent + [message];
          if !sendSucceeds(subscriber.email) {
            assert DispatchAll(all[i..], form, sendSucceeds) == Dispatch([message], Some(subscriber.email));
            return Err(SendFailure(subscriber.email)), None, sent;
          }
          assert DispatchAll(all[i..], form, sendSucceeds) == Dispatch([message] + rest.sent, rest.failed);
        case Err(_) =>
          assert DispatchAll(all[i..], form, sendSucceeds) == rest;
      }
      i := i + 1;
    }
    assert all[i..] == [];
    response, flash := Ok(SeeOther(NEWSLETTERS_PAGE)), Some(PUBLISHED_FLASH);
  }

  /** With no failing send, the number of sends equals the number of valid entries. */
  lemma {:induction false} AllSentWhenNoFailure(
    stored: seq<string>, isValidEmail: string -> bool, form: BodyData, sendSucceeds: string -> bool)
    requires forall e :: e in stored && isValidEmail(e) ==> sendSucceeds(e)
    ensures var p := Publish(Ok(stored), isValidEmail, form, sendSucceeds);
      && p.response == Ok(SeeOther(NEWSLETTERS_PAGE))
      && |p.sent| == |ValidRecipients(ParseRows(stored, isValidEmail))|
  {
    ValidRecipientsFromStored(stored, isValidEmail);
    DispatchSendsValidPrefix(ParseRows(stored, isValidEmail), form, sendSucceeds);
  }

  /** Every valid recipient is one of the stored addresses. */
  lemma {:induction false} ValidRecipientsFromStored(stored: seq<string>, isValidEmail: string -> bool)
    ensures forall e :: e in ValidRecipients(ParseRows(stored, isValidEmail)) ==> e in stored && isValidEmail(e)
  {
    if stored != [] {
      ValidRecipientsFromStored(stored[1..], isValidEmail);
      assert ParseRows(stored, isValidEmail)[1..] == ParseRows(stored[1..], isValidEmail);
    }
  }
}
