/** The notification overlay: what warns of a poor connection, borrowed by the reconnect status. */
module Overlay {
  datatype ConnStatus = Okay | Poor | Unknown

  datatype Event =
    | StatusUpdate(status: ConnStatus)
    | ShowReconnectStatus(text: string)
    | HideReconnectStatus
    | FinishReconnect
    | EnterPip
    | LeavePip

  datatype State = State(text: string, requested: bool, shown: bool, hiding: bool, statusShown: bool, savedText: string,
                         savedRequested: bool)

  const SLOW_CONNECTION := "slow_connection_msg"
  const POOR_CONNECTION := "poor_connection_msg"

  /** The stream's settings. */
  datatype Prefs = Prefs(disableWarnings: bool, bitrate: int)

  function Warning(prefs: Prefs): string {
    if prefs.bitrate > 5000 then SLOW_CONNECTION else POOR_CONNECTION
  }

  class NotificationOverlay {
    const prefs: Prefs
    /** The view's text and visibility. */
    var text: string
    var shown: bool
    var requestedNotificationOverlayVisibility: bool
    var isHidingOverlays: bool
    var reconnectStatusShown: bool
    var notificationTextBeforeReconnect: string
    var notificationVisibilityBeforeReconnect: bool

    function Now(): State
      reads this
    {
      State(text, requestedNotificationOverlayVisibility, shown, isHidingOverlays, reconnectStatusShown,
            notificationTextBeforeReconnect, notificationVisibilityBeforeReconnect)
    }

    constructor (prefs: Prefs, text: string)
      ensures this.prefs == prefs && Now() == State(text, false, false, false, false, "", false)
    {
      this.prefs, this.text := prefs, text;
      shown, requestedNotificationOverlayVisibility, isHidingOverlays, reconnectStatusShown := false, false, false,
          false;
      notificationTextBeforeReconnect, notificationVisibilityBeforeReconnect := "", false;
    }

    method SetVisibilityUnlessHiding(visible: bool)
      modifies this`shown
      ensures shown == if isHidingOverlays then old(shown) else visible
    {
      if !isHidingOverlays {
        shown := visible;
      }
    }

    method ConnectionStatusUpdate(status: ConnStatus)
      modifies this
      ensures Now() == Step(prefs, old(Now()), StatusUpdate(status))
      ensures !prefs.disableWarnings && status.Poor? ==>
              (if reconnectStatusShown then notificationTextBeforeReconnect else text) ==
              if prefs.bitrate > 5000 then "slow_connection_msg" else "poor_connection_msg"
    {
      if prefs.disableWarnings {
        return;
      }
      if reconnectStatusShown {
        if status == Poor {
          notificationTextBeforeReconnect := Warning(prefs);
          notificationVisibilityBeforeReconnect := true;
        } else if status == Okay {
          notificationVisibilityBeforeReconnect := false;
        }
        return;
      }
      if status == Poor {
        text := Warning(prefs);
        requestedNotificationOverlayVisibility := true;
      } else if status == Okay {
        requestedNotificationOverlayVisibility := false;
      }
      SetVisibilityUnlessHiding(requestedNotificationOverlayVisibility);
    }

    method ShowStatus(status: string)
      modifies this
      ensures Now() == Step(prefs, old(Now()), ShowReconnectStatus(status))
    {
      if !reconnectStatusShown {
        reconnectStatusShown := true;
        notificationTextBeforeReconnect := text;
        notificationVisibilityBeforeReconnect := requestedNotificationOverlayVisibility;
      }
      text := status;
      requestedNotificationOverlayVisibility := true;
      SetVisibilityUnlessHiding(true);
    }

    method HideStatus()
      modifies this
      ensures Now() == Step(prefs, old(Now()), HideReconnectStatus)
    {
      if !reconnectStatusShown {
        return;
      }
      reconnectStatusShown := false;
      text := notificationTextBeforeReconnect;
      requestedNotificationOverlayVisibility := notificationVisibilityBeforeReconnect;
      SetVisibilityUnlessHiding(requestedNotificationOverlayVisibility);
    }

    /** The overlay's part of a reconnect that brought the stream back. */
    method FinishStatus()
      modifies this
      ensures Now() == Step(prefs, old(Now()), FinishReconnect)
    {
      notificationVisibilityBeforeReconnect := false;
      HideStatus();
    }

    method ConfigurationChanged(inPictureInPicture: bool)
      modifies this`isHidingOverlays, this`shown
      ensures Now() == Step(prefs, old(Now()), if inPictureInPicture then EnterPip else LeavePip)
    {
      if inPictureInPicture {
        isHidingOverlays := true;
        shown := false;
      } else {
        isHidingOverlays := false;
        shown := requestedNotificationOverlayVisibility;
      }
    }
  }

  // ---- The same, on values ----

  function Shown(s: State, visible: bool): State {
    if s.hiding then s else s.(shown := visible)
  }

  function Step(prefs: Prefs, s: State, e: Event): State {
    match e
    case StatusUpdate(status) =>
      if prefs.disableWarnings then s
      else if s.statusShown then
        (match status
         case Poor => s.(savedText := Warning(prefs), savedRequested := true)
         case Okay => s.(savedRequested := false)
         case Unknown => s)
      else
        var s' := match status
                  case Poor => s.(text := Warning(prefs), requested := true)
                  case Okay => s.(requested := false)
                  case Unknown => s;
        Shown(s', s'.requested)
    case ShowReconnectStatus(text) =>
      var saved :=
        if s.statusShown then s else s.(statusShown := true, savedText := s.text, savedRequested := s.requested);
      Shown(saved.(text := text, requested := true), true)
    case HideReconnectStatus => Hidden(s)
    case FinishReconnect => Hidden(s.(savedRequested := false))
    case EnterPip => s.(hiding := true, shown := false)
    case LeavePip => s.(hiding := false, shown := s.requested)
  }

  function Hidden(s: State): State {
    if !s.statusShown then s
    else Shown(s.(statusShown := false, text := s.savedText, requested := s.savedRequested), s.savedRequested)
  }

  function Run(prefs: Prefs, s: State, events: seq<Event>): State {
    if events == [] then s else Step(prefs, Run(prefs, s, events[..|events| - 1]), events[|events| - 1])
  }

  // ---- A screen that never reconnects ----

  /** What the overlay is without the status: the text it would show, whether it is wanted, whether it is seen. */
  datatype Plain = Plain(text: string, requested: bool, shown: bool, hiding: bool)

  function PlainStep(prefs: Prefs, p: Plain, e: Event, forced: bool): Plain {
    match e
    case StatusUpdate(status) =>
      if prefs.disableWarnings then p
      else
        (match status
         case Poor => Plain(Warning(prefs), true, !p.hiding, p.hiding)
         case Okay => Plain(p.text, false, false, p.hiding)
         case Unknown => p)
    case ShowReconnectStatus(_) => p
    case HideReconnectStatus => p
    case FinishReconnect => if forced then Plain(p.text, false, false, p.hiding) else p
    case EnterPip => Plain(p.text, p.requested, false, true)
    case LeavePip => Plain(p.text, p.requested, p.requested, false)
  }

  /** The run with the status left out; a reconnect that finishes takes the warning down, if a status was up. */
  function PlainRun(prefs: Prefs, s: State, events: seq<Event>): Plain {
    if events == [] then Beneath(s)
    else
      var before := events[..|events| - 1];
      PlainStep(prefs, PlainRun(prefs, s, before), events[|events| - 1], Run(prefs, s, before).statusShown)
  }

  /** What the overlay holds beneath the status: what was saved while it is up, what is there otherwise. */
  function Beneath(s: State): Plain {
    if s.statusShown then Plain(s.savedText, s.savedRequested, s.savedRequested && !s.hiding, s.hiding)
    else Plain(s.text, s.requested, s.shown, s.hiding)
  }

  /** The view is hidden exactly in picture-in-picture or when not wanted; while up, the status is wanted. */
  ghost predicate Visible(s: State) {
    && (s.shown <==> s.requested && !s.hiding)
    && (s.statusShown ==> s.requested)
  }

  lemma StepSimulates(prefs: Prefs, s: State, e: Event)
    requires Visible(s)
    ensures Visible(Step(prefs, s, e)) && Beneath(Step(prefs, s, e)) == PlainStep(prefs, Beneath(s), e, s.statusShown)
  {
  }

  /** Whatever happens: beneath the status, the overlay is as on a screen that never showed one, so what
      the status gives back is what that screen shows; and it is seen exactly when it should be. */
  lemma {:induction false} BorrowedAndGivenBack(prefs: Prefs, s: State, events: seq<Event>)
    requires Visible(s)
    ensures Visible(Run(prefs, s, events))
    ensures Beneath(Run(prefs, s, events)) == PlainRun(prefs, s, events)
  {
    hide Visible, Step, PlainStep, Beneath;
    if events != [] {
      var before := events[..|events| - 1];
      BorrowedAndGivenBack(prefs, s, before);
      StepSimulates(prefs, Run(prefs, s, before), events[|events| - 1]);
    }
  }

  /** While the status is up, it is what is on the screen. */
  lemma StatusOnScreen(prefs: Prefs, s: State, text: string)
    requires Visible(s)
    ensures var s' := Step(prefs, s, ShowReconnectStatus(text));
            s'.statusShown && s'.text == text && (s'.shown <==> !s.hiding) && Beneath(s') == Beneath(s)
  {
  }
}
