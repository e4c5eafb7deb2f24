/** The `/logout` command (`src/bot/commands/logout.ts`). */
module Logout {
  import opened Common
  import opened Sessions
  import opened Bot

  /** `/logout` on a session: refused when the session is not flagged
    * authenticated; otherwise notifications for a present chat are stopped,
    * the session is cleared and the user told so. */
  function LogoutCommand(s: SessionState, chat: Option<int>): (r: Step)
    ensures !s.authenticated ==> r == Step(s, Consumed, [Reply(NotLoggedIn)])
    ensures s.authenticated ==> r.state == Cleared() && r.handled == Consumed
    ensures s.authenticated ==> 1 <= |r.events| <= 2 && r.events[|r.events| - 1] == Reply(LoggedOut)
    ensures s.authenticated && ChatPresent(chat) ==> r.events == [CleanupNotifications(chat.value), Reply(LoggedOut)]
    ensures forall c :: CleanupNotifications(c) in r.events <==> s.authenticated && ChatPresent(chat) && c == chat.value
  {
    if !s.authenticated then Step(s, Consumed, [Reply(NotLoggedIn)])
    else
      var cleanup := if ChatPresent(chat) then [CleanupNotifications(chat.value)] else [];
      Step(Cleared(), Consumed, cleanup + [Reply(LoggedOut)])
  }

  /** After a logout the user holds no token, no step and no scratch space,
    * and is not authenticated in either sense. */
  lemma LogoutEndsSession(s: SessionState, chat: Option<int>)
    requires s.authenticated
    ensures var t := LogoutCommand(s, chat).state;
            !t.authenticated && !IsAuthenticated(t) && t.token == None && t.currentStep == None && t.tempData == None
  {
  }

  /** A second `/logout` takes the not-logged-in branch and changes nothing. */
  lemma LogoutTwice(s: SessionState, chat: Option<int>, chat2: Option<int>)
    ensures var t := LogoutCommand(s, chat).state;
            LogoutCommand(t, chat2) == Step(t, Consumed, [Reply(NotLoggedIn)])
  {
  }

  /** The handler on the session record; notifications are stopped before the
    * record is cleared. */
  method RunLogoutCommand(s: Session, chat: Option<int>) returns (handled: Handled, events: seq<Event>)
    modifies s
    ensures Step(s.State(), handled, events) == LogoutCommand(old(s.State()), chat)
  {
    if !s.authenticated {
      return Consumed, [Reply(NotLoggedIn)];
    }
    events := [];
    if chat.Some? && chat.value != 0 {
      events := events + [CleanupNotifications(chat.value)];
    }
    s.ClearSession();
    events := events + [Reply(LoggedOut)];
    handled := Consumed;
  }
}
