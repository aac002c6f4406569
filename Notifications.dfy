/** The broadcast composer (app/private/notifications/page.tsx): title,
    message, the sending flag and the status banner. handleSend is split at
    its await: BeginSend returns the broadcast call, FinishSend takes the
    boolean it resolved with. The 3-second timer that clears the banner is
    the caller's: it calls ClearStatus. */
module Notifications {
  import Js
  import opened AdminApi

  datatype Status = Idle | Success | Error

  class NotificationsPage {
    var title: string
    var message: string
    var sending: bool
    var status: Status

    constructor()
      ensures title == "" && message == "" && !sending && status == Idle
    {
      title := "";
      message := "";
      sending := false;
      status := Idle;
    }

    /** The submit button is disabled while a broadcast is in flight. */
    predicate CanSubmit()
      reads this
    {
      !sending
    }

    method SetTitle(value: string)
      modifies this
      ensures title == value && message == old(message) && sending == old(sending) && status == old(status)
    {
      title := value;
    }

    method SetMessage(value: string)
      modifies this
      ensures message == value && title == old(title) && sending == old(sending) && status == old(status)
    {
      message := value;
    }

    /** handleSend up to its await: with an empty title or message nothing
        happens; otherwise sending starts, the banner is reset, and exactly
        one broadcast of the current title and message is made. */
    method BeginSend() returns (call: Js.Option<Call>)
      modifies this
      ensures old(title) == "" || old(message) == "" ==>
        call.None? && title == old(title) && message == old(message) && sending == old(sending) && status == old(status)
      ensures old(title) != "" && old(message) != "" ==>
        call == Js.Some(SendBroadcastNotification(old(title), old(message))) && sending && status == Idle
      ensures title == old(title) && message == old(message)
    {
      if title == "" || message == "" {
        return Js.None;
      }
      sending := true;
      status := Idle;
      call := Js.Some(SendBroadcastNotification(title, message));
    }

    /** The rest of handleSend: success shows the banner and clears the
        form, failure shows the error and keeps what was typed; sending
        ends either way. */
    method FinishSend(success: bool)
      modifies this
      ensures !sending
      ensures success ==> status == Success && title == "" && message == ""
      ensures !success ==> status == Error && title == old(title) && message == old(message)
    {
      if success {
        status := Success;
        title := "";
        message := "";
      } else {
        status := Error;
      }
      sending := false;
    }

    /** The timer set after a success puts the banner back to idle. */
    method ClearStatus()
      modifies this
      ensures status == Idle && title == old(title) && message == old(message) && sending == old(sending)
    {
      status := Idle;
    }
  }
}
