/**
 * The review queue of client/src/App.jsx: the drafts fetched from the
 * gateway, the position of the card on screen, and the flag that lets only
 * one send or flag request be outstanding at a time.
 *
 * A swipe is two steps, as in the source: `Swipe` runs up to the awaited
 * request (it raises the in-flight flag and issues the call) and `Settle` is
 * the continuation once the answer is in, with the 300 ms pause before the
 * advance taken as part of the same step. Network answers are inputs.
 */
module App {
  import opened Builtins
  import Server
  import EmailCard

  /** The request a swipe issues to the gateway. */
  datatype ApiCall =
    | SendCall(draftId: string)
    | FlagCall(draftId: string, messageId: Option<string>)

  datatype ToastKind = Success | Info | Warning | Error
  datatype Toast = Toast(message: string, kind: ToastKind)

  /**
   * What `fetchDrafts` reads from `/api/drafts`: the JSON fields it looks at
   * (an error body has neither), or a fetch that threw.
   */
  datatype DraftsAnswer =
    | Answer(drafts: Option<seq<Server.DraftRecord>>, message: Option<string>)
    | Unreachable

  /** What the main area shows. */
  datatype Screen = AuthScreen | CardScreen(draft: Server.DraftRecord) | EmptyScreen

  const SentToast := Toast("\U{2709}\U{FE0F} Email sent!", Success)
  const FlaggedToast := Toast("\U{1F6A9} Flagged for review", Warning)
  const ActionFailedToast := Toast("Action failed. Please try again.", Error)
  const FetchFailedToast := Toast("Failed to fetch drafts", Error)

  /** A right swipe sends the draft by its id; any other swipe flags it by its message id. */
  function CallFor(direction: EmailCard.Direction, d: Server.DraftRecord): (c: ApiCall)
    ensures c.SendCall? <==> direction == EmailCard.Right
    ensures c.SendCall? ==> c.draftId == d.id
    ensures c.FlagCall? ==> c.draftId == d.id && c.messageId == d.messageId
  {
    if direction == EmailCard.Right then SendCall(d.id) else FlagCall(d.id, d.messageId)
  }

  /** The toast shown when the gateway confirms a call. */
  function ConfirmationFor(c: ApiCall): Toast {
    if c.SendCall? then SentToast else FlaggedToast
  }

  class ReviewQueue {
    var isAuthenticated: bool
    var drafts: seq<Server.DraftRecord>
    var currentIndex: nat
    var actionInProgress: bool
    /** The request a swipe is waiting on, if any. */
    var pending: Option<ApiCall>
    var toast: Option<Toast>

    /** After a logout the list is empty but the position is not reset. */
    ghost predicate LoggedOut()
      reads this
    {
      !isAuthenticated && drafts == []
    }

    /**
     * The in-flight flag is raised exactly while a request is outstanding;
     * the position never passes the end of the list, and a request is only
     * outstanding for a card in the list, unless a logout emptied the list.
     */
    ghost predicate Valid()
      reads this
    {
      && (actionInProgress <==> pending.Some?)
      && (currentIndex <= |drafts| || LoggedOut())
      && (actionInProgress ==> currentIndex < |drafts| || LoggedOut())
    }

    /**
     * The first render: the status check decides, if it answered; otherwise
     * the `?auth=success` marker of the OAuth redirect does.
     */
    constructor Mount(callbackSucceeded: bool, status: Option<bool>)
      ensures Valid()
      ensures isAuthenticated == status.GetOr(callbackSucceeded)
      ensures drafts == [] && currentIndex == 0 && !actionInProgress && pending.None? && toast.None?
    {
      isAuthenticated := status.GetOr(callbackSucceeded);
      drafts := [];
      currentIndex := 0;
      actionInProgress := false;
      pending := None;
      toast := None;
    }

    /** `currentDraft ? <EmailCard/> : <EmptyState/>`, behind the sign-in screen. */
    function Screen(): (s: Screen)
      reads this
      ensures s.CardScreen? ==> currentIndex < |drafts| && s.draft == drafts[currentIndex]
      ensures isAuthenticated && currentIndex >= |drafts| <==> s == EmptyScreen
      ensures s == AuthScreen <==> !isAuthenticated
    {
      if !isAuthenticated then AuthScreen
      else if currentIndex < |drafts| then CardScreen(drafts[currentIndex])
      else EmptyScreen
    }

    /** `drafts.length - currentIndex`, the count in the header. */
    function RemainingCount(): (n: int)
      reads this
      ensures Valid() && isAuthenticated ==> n >= 0
      ensures Valid() && isAuthenticated ==> (n == 0 <==> Screen() == EmptyScreen)
      ensures Valid() && isAuthenticated ==> (n > 0 <==> Screen().CardScreen?)
    {
      |drafts| - currentIndex
    }

    /** The card's `disabled` prop: it cannot be dragged while a request is outstanding. */
    function CardDisabled(): (disabled: bool)
      reads this
      ensures Valid() ==> (disabled <==> pending.Some?)
      ensures disabled ==> forall offset: real :: EmailCard.DragSwipe(disabled, offset).None?
    {
      actionInProgress
    }

    /**
     * `handleSwipe` up to the awaited request. It does nothing while a request
     * is outstanding or when no card is left; otherwise it raises the
     * in-flight flag and issues exactly one call for the current draft.
     */
    method Swipe(direction: EmailCard.Direction) returns (call: Option<ApiCall>)
      requires Valid()
      modifies this
      ensures Valid()
      ensures old(actionInProgress) || old(currentIndex) >= old(|drafts|) ==>
        call.None? && unchanged(this)
      ensures !old(actionInProgress) && old(currentIndex) < old(|drafts|) ==>
        && call == Some(CallFor(direction, old(drafts)[old(currentIndex)]))
        && actionInProgress && pending == call
        && drafts == old(drafts) && currentIndex == old(currentIndex)
        && isAuthenticated == old(isAuthenticated) && toast == old(toast)
    {
      if actionInProgress || currentIndex >= |drafts| {
        return None;
      }
      var d := drafts[currentIndex];
      actionInProgress := true;
      call := Some(CallFor(direction, d));
      pending := call;
    }

    /**
     * The rest of `handleSwipe`, once the answer is in. On success the
     * confirmation toast is shown and the position advances by exactly one;
     * on failure the position stays and the failure toast is shown. Either
     * way the in-flight flag comes down.
     */
    method Settle(succeeded: bool)
      requires Valid() && actionInProgress
      modifies this
      ensures Valid() && !actionInProgress && pending.None?
      ensures succeeded ==> currentIndex == old(currentIndex) + 1 && toast == Some(ConfirmationFor(old(pending).value))
      ensures !succeeded ==> currentIndex == old(currentIndex) && toast == Some(ActionFailedToast)
      ensures drafts == old(drafts) && isAuthenticated == old(isAuthenticated)
    {
      if succeeded {
        toast := Some(ConfirmationFor(pending.value));
        currentIndex := currentIndex + 1;
      } else {
        toast := Some(ActionFailedToast);
      }
      actionInProgress := false;
      pending := None;
    }

    /**
     * `fetchDrafts`: an answer replaces the list (an answer without drafts
     * empties it), returns to the first card and shows the gateway's message
     * if it sent one; a fetch that threw only shows the failure toast.
     */
    method FetchDrafts(answer: DraftsAnswer)
      requires Valid() && !actionInProgress
      modifies this
      ensures Valid() && !actionInProgress && pending == old(pending)
      ensures answer.Answer? ==> drafts == answer.drafts.GetOr([]) && currentIndex == 0
      ensures answer.Answer? ==>
        toast == if answer.message.Some? && answer.message.value != "" then Some(Toast(answer.message.value, Info))
                 else old(toast)
      ensures answer.Unreachable? ==>
        drafts == old(drafts) && currentIndex == old(currentIndex) && toast == Some(FetchFailedToast)
      ensures isAuthenticated == old(isAuthenticated)
    {
      if answer.Unreachable? {
        toast := Some(FetchFailedToast);
        return;
      }
      drafts := answer.drafts.GetOr([]);
      currentIndex := 0;
      if answer.message.Some? && answer.message.value != "" {
        toast := Some(Toast(answer.message.value, Info));
      }
    }

    /** `handleLogout`: once the gateway confirms, sign out and empty the list (the position is kept). */
    method Logout(confirmed: bool)
      requires Valid()
      modifies this
      ensures Valid()
      ensures confirmed ==> !isAuthenticated && drafts == []
      ensures !confirmed ==> isAuthenticated == old(isAuthenticated) && drafts == old(drafts)
      ensures currentIndex == old(currentIndex) && actionInProgress == old(actionInProgress)
      ensures pending == old(pending) && toast == old(toast)
    {
      if confirmed {
        isAuthenticated := false;
        drafts := [];
      }
    }
  }

  /**
   * A right swipe on the only draft sends it by id, a second swipe while that
   * request is outstanding issues nothing and, once confirmed, the queue is at
   * its end and shows the empty state.
   */
  method SendTheOnlyDraft(d: Server.DraftRecord) returns (q: ReviewQueue, call: Option<ApiCall>, second: Option<ApiCall>)
    ensures call == Some(SendCall(d.id))
    ensures second.None?
    ensures q.Valid() && q.currentIndex == 1 && q.RemainingCount() == 0 && q.Screen() == EmptyScreen
    ensures q.toast == Some(SentToast)
  {
    q := new ReviewQueue.Mount(true, Some(true));
    q.FetchDrafts(Answer(Some([d]), None));
    call := q.Swipe(EmailCard.Right);
    second := q.Swipe(EmailCard.Left);
    q.Settle(true);
  }

  /**
   * Signing out after one confirmed swipe leaves the position past the end of
   * the emptied list; the sign-in screen is what is shown.
   */
  method LogoutKeepsPosition(d: Server.DraftRecord) returns (q: ReviewQueue)
    ensures q.Valid() && q.currentIndex == 1 && q.drafts == [] && q.Screen() == AuthScreen
  {
    q := new ReviewQueue.Mount(true, Some(true));
    q.FetchDrafts(Answer(Some([d]), None));
    var call := q.Swipe(EmailCard.Left);
    q.Settle(true);
    q.Logout(true);
  }
}
