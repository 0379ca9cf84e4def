/**
 The bookkeeping of the GTK notification daemon (yurind.py): id allocation,
 replacement, the stack of visible windows with its top-margin layout, the idle
 callbacks that `Notify` leaves for the main loop, and the `NotificationClosed`
 signals the windows emit.
 */
module Yurind {
  import opened FreedesktopNotifications

  /** The top margin, in pixels, of the window at position `index` of the stack. */
  function TopMargin(index: nat): int
  {
    20 + index * 100
  }

  predicate Distinct<T(==)>(s: seq<T>)
  {
    forall i, j | 0 <= i < j < |s| :: s[i] != s[j]
  }

  /** The position of the first occurrence of `x` in `s`. */
  function IndexOf<T(==)>(s: seq<T>, x: T): (i: nat)
    requires x in s
    ensures i < |s| && s[i] == x
    ensures forall j | 0 <= j < i :: s[j] != x
  {
    if s[0] == x then 0 else 1 + IndexOf(s[1..], x)
  }

  /** Python's `list.remove`: the sequence without the first occurrence of `x`. */
  function RemoveFirst<T(==)>(s: seq<T>, x: T): seq<T>
    requires x in s
  {
    if s[0] == x then s[1..] else [s[0]] + RemoveFirst(s[1..], x)
  }

  /**
   `list.remove` cuts the list around the first occurrence: what comes before it
   and what comes after it stay, in order.
   */
  lemma {:induction false} RemoveFirstIsDeletion<T>(s: seq<T>, x: T)
    requires x in s
    ensures RemoveFirst(s, x) == s[..IndexOf(s, x)] + s[IndexOf(s, x) + 1..]
  {
    if s[0] != x {
      var t := s[1..];
      assert s == [s[0]] + t;
      RemoveFirstIsDeletion(t, x);
      ConsSlices(s, IndexOf(t, x));
    }
  }

  /** Cutting `s` after position `i + 1` is cutting its tail after position `i`. */
  lemma ConsSlices<T>(s: seq<T>, i: nat)
    requires i + 1 < |s|
    ensures [s[0]] + (s[1..][..i] + s[1..][i + 1..]) == s[..i + 1] + s[i + 2..]
  {
    assert [s[0]] + s[1..][..i] == s[..i + 1];
    assert s[1..][i + 1..] == s[i + 2..];
  }

  /** Deleting position `i` from a sequence without repetitions removes `s[i]` and nothing else. */
  lemma DeleteAt<T>(s: seq<T>, i: nat)
    requires Distinct(s) && i < |s|
    ensures Distinct(s[..i] + s[i + 1..])
    ensures forall y :: y in s[..i] + s[i + 1..] <==> y in s && y != s[i]
  {
    var r := s[..i] + s[i + 1..];
    assert |r| == |s| - 1;
    assert forall j | 0 <= j < |r| :: r[j] == s[if j < i then j else j + 1];
    forall j, k | 0 <= j < k < |r|
      ensures r[j] != r[k]
    {
      assert r[j] == s[if j < i then j else j + 1];
      assert r[k] == s[if k < i then k else k + 1];
    }
    forall y | y in s && y != s[i]
      ensures y in r
    {
      var k :| 0 <= k < |s| && s[k] == y;
      assert r[if k < i then k else k - 1] == y;
    }
  }

  /**
   Removing a window from a stack without repetitions leaves a stack without
   repetitions that holds every other window and not the removed one.
   */
  lemma RemoveFirstFromDistinct<T>(s: seq<T>, x: T)
    requires Distinct(s) && x in s
    ensures Distinct(RemoveFirst(s, x))
    ensures forall y :: y in RemoveFirst(s, x) <==> y in s && y != x
  {
    RemoveFirstIsDeletion(s, x);
    DeleteAt(s, IndexOf(s, x));
  }

  /** One button of a notification: the action key it reports and the text it shows. */
  datatype ActionButton = ActionButton(key: string, text: string)

  /** Python's `IndexError` raised by `actions[i+1]`, with the index it was asked for. */
  datatype ActionError = IndexError(index: nat)

  /** `buttons` are the pairs (key, label) of `actions`, in list order. */
  predicate Paired(actions: seq<string>, buttons: seq<ActionButton>)
  {
    && |buttons| == |actions| / 2
    && forall k | 0 <= k < |buttons| :: buttons[k] == ActionButton(actions[2 * k], actions[2 * k + 1])
  }

  /**
   The buttons a window builds from its `actions` list, read as the pairs
   (key, label). An odd-length list runs past its end on the last key.
   */
  method ActionButtons(actions: seq<string>) returns (r: Result<seq<ActionButton>, ActionError>)
    ensures r.Ok? <==> |actions| % 2 == 0
    ensures r.Err? ==> r.error == IndexError(|actions|)
    ensures r.Ok? ==> Paired(actions, r.value)
  {
    var buttons: seq<ActionButton> := [];
    if |actions| != 0 {
      var i := 0;
      while i < |actions|
        invariant 0 <= i <= |actions| && i % 2 == 0
        invariant |buttons| == i / 2
        invariant forall k | 0 <= k < |buttons| ::
                    buttons[k] == ActionButton(actions[2 * k], actions[2 * k + 1])
      {
        var key := actions[i];
        if i + 1 == |actions| {
          return Err(IndexError(i + 1));
        }
        var text := actions[i + 1];
        buttons := buttons + [ActionButton(key, text)];
        i := i + 2;
      }
    }
    return Ok(buttons);
  }

  /** A popup window. Only what the bookkeeping sees of it is modelled. */
  class NotificationWindow {
    const nid: nat
    const summary: string
    const body: string
    const icon: string
    const buttons: seq<ActionButton>
    /** The layer-shell top margin, which the service rewrites when the stack shrinks. */
    var topMargin: int
    /**
     Whether `close()` has destroyed the window. The constructor shows the window,
     so it starts open; GTK's `close()` does nothing on a destroyed window.
     */
    var closed: bool

    /** The window shows notification `nid` with this content and the buttons of `actions`. */
    predicate Displays(nid: nat, summary: string, body: string, icon: string, actions: seq<string>)
    {
      && this.nid == nid && this.summary == summary && this.body == body && this.icon == icon
      && Paired(actions, buttons)
    }

    constructor (nid: nat, summary: string, body: string, icon: string, depth: nat,
                 buttons: seq<ActionButton>)
      ensures this.nid == nid && this.summary == summary && this.body == body
      ensures this.icon == icon && this.buttons == buttons
      ensures topMargin == TopMargin(depth) && !closed
    {
      this.nid := nid;
      this.summary := summary;
      this.body := body;
      this.icon := icon;
      this.buttons := buttons;
      this.topMargin := TopMargin(depth);
      this.closed := false;
    }

    /**
     Builds the window for notification `nid` below the windows of `stack`;
     fails, registering nothing, when `actions` cannot be read as pairs.
     */
    static method Open(nid: nat, summary: string, body: string, icon: string,
                       stack: seq<NotificationWindow>, actions: seq<string>)
      returns (r: Result<NotificationWindow, ActionError>)
      ensures r.Ok? <==> |actions| % 2 == 0
      ensures r.Ok? ==> fresh(r.value) && r.value.Displays(nid, summary, body, icon, actions)
      ensures r.Ok? ==> r.value.topMargin == TopMargin(|stack|) && !r.value.closed
    {
      var made := ActionButtons(actions);
      if made.Err? {
        return Err(made.error);
      }
      var win := new NotificationWindow(nid, summary, body, icon, |stack|, made.value);
      return Ok(win);
    }
  }

  /** A callback left for the GLib main loop with `idle_add`. */
  datatype IdleCallback =
    | IdleClose(win: NotificationWindow)
    | IdleShow(nid: nat, summary: string, body: string, icon: string, actions: seq<string>)

  /** An emitted `NotificationClosed(nid, reason)` signal. */
  datatype ClosedSignal = NotificationClosed(nid: nat, reason: nat)

  /** Why the reply to `Notify` is a D-Bus error: the id does not fit `dbus.UInt32`. */
  datatype ReplyError = UInt32OutOfRange(nid: nat)

  /** The reply `dbus.UInt32(nid)`. */
  function UInt32Reply(nid: nat): (r: Result<uint32, ReplyError>)
    ensures r.Ok? <==> nid < 0x1_0000_0000
    ensures r.Ok? ==> r.value == nid
  {
    if nid < 0x1_0000_0000 then Ok(nid) else Err(UInt32OutOfRange(nid))
  }

  /** The ids of the `show_notification` callbacks in `callbacks`, in order. */
  function ShownIds(callbacks: seq<IdleCallback>): seq<nat>
  {
    if callbacks == [] then []
    else (if callbacks[0].IdleShow? then [callbacks[0].nid] else [])
         + ShownIds(callbacks[1..])
  }

  lemma {:induction false} ShownIdsAppend(a: seq<IdleCallback>, b: seq<IdleCallback>)
    ensures ShownIds(a + b) == ShownIds(a) + ShownIds(b)
  {
    if a == [] {
      assert a + b == b;
    } else {
      assert (a + b)[0] == a[0];
      assert (a + b)[1..] == a[1..] + b;
      ShownIdsAppend(a[1..], b);
    }
  }

  /** Queuing closes and then one show adds exactly that show's id to the pending ones. */
  lemma QueueShow(p: seq<IdleCallback>, closing: seq<IdleCallback>, show: IdleCallback)
    requires forall c | c in closing :: c.IdleClose?
    requires show.IdleShow?
    ensures ShownIds(p + closing + [show]) == ShownIds(p) + [show.nid]
  {
    ShownIdsAppend(p, closing);
    ShownIdsAppend(p + closing, [show]);
    NoShownIds(closing);
    assert [show][1..] == [];
  }

  lemma {:induction false} NoShownIds(closing: seq<IdleCallback>)
    requires forall c | c in closing :: c.IdleClose?
    ensures ShownIds(closing) == []
  {
    if closing != [] {
      assert closing[0] in closing;
      assert forall c | c in closing[1..] :: c in closing;
      NoShownIds(closing[1..]);
    }
  }

  /**
   Taking the oldest callback off the queue leaves show ids that were already
   there, still without repetitions, and without the id of a show just taken off.
   */
  lemma PopPending(p: seq<IdleCallback>)
    requires p != [] && Distinct(ShownIds(p))
    ensures Distinct(ShownIds(p[1..]))
    ensures forall n | n in ShownIds(p[1..]) :: n in ShownIds(p)
    ensures p[0].IdleShow? ==> p[0].nid in ShownIds(p) && p[0].nid !in ShownIds(p[1..])
  {
    var head := if p[0].IdleShow? then [p[0].nid] else [];
    assert ShownIds(p) == head + ShownIds(p[1..]);
    DistinctSplit(head, ShownIds(p[1..]));
  }

  /** Both parts of a concatenation without repetitions are without repetitions and share nothing. */
  lemma DistinctSplit<T>(a: seq<T>, b: seq<T>)
    requires Distinct(a + b)
    ensures Distinct(b)
    ensures forall i | 0 <= i < |a| :: a[i] !in b
  {
    var ab := a + b;
    forall i, j | 0 <= i < j < |b|
      ensures b[i] != b[j]
    {
      assert b[i] == ab[|a| + i] && b[j] == ab[|a| + j];
    }
    forall i, j | 0 <= i < |a| && 0 <= j < |b|
      ensures a[i] != b[j]
    {
      assert a[i] == ab[i] && b[j] == ab[|a| + j];
    }
  }

  lemma DistinctAppend<T>(s: seq<T>, x: T)
    requires Distinct(s) && x !in s
    ensures Distinct(s + [x])
  {
    var t := s + [x];
    forall i, j | 0 <= i < j < |t|
      ensures t[i] != t[j]
    {
      if j < |s| { assert t[i] == s[i] && t[j] == s[j]; } else { assert t[i] == s[i]; }
    }
  }

  /** The `org.freedesktop.Notifications` service object. */
  class NotificationService {
    var nextId: nat
    /** nid -> window; entries are removed only by a replacement, never when a window closes. */
    var notifications: map<nat, NotificationWindow>
    /** The visible windows, top to bottom; each window's `stack` is this same list. */
    var stack: seq<NotificationWindow>
    /** The idle callbacks not yet run, in the order the main loop runs them. */
    var pending: seq<IdleCallback>
    /** The `NotificationClosed` signals emitted so far. */
    ghost var signals: seq<ClosedSignal>

    /**
     Every id handed out is below `nextId`; an id is either registered or waiting
     in one `show_notification` callback, never both; the stack has no window twice,
     holds no destroyed window, and each window sits at the margin of its position.
     */
    ghost predicate Valid()
      reads this, stack
    {
      && 1 <= nextId
      && (forall k | k in notifications :: 1 <= k < nextId && notifications[k].nid == k)
      && (forall n | n in ShownIds(pending) :: 1 <= n < nextId && n !in notifications)
      && Distinct(ShownIds(pending))
      && Distinct(stack)
      && (forall i | 0 <= i < |stack| :: !stack[i].closed)
      && (forall i | 0 <= i < |stack| :: stack[i].topMargin == TopMargin(i))
    }

    constructor ()
      ensures Valid()
      ensures nextId == 1 && notifications == map[] && stack == [] && pending == []
      ensures signals == []
    {
      nextId := 1;
      notifications := map[];
      stack := [];
      pending := [];
      signals := [];
    }

    /**
     Takes the next id whatever happens; a live `replacesId` is answered with
     itself, its entry dropped and its old window scheduled for closing. The new
     window is only scheduled: nothing is registered before the main loop runs it.
     `appName`, `hints` and `expireTimeout` are not used.
     */
    method Notify(appName: string, replacesId: uint32, appIcon: string, summary: string,
                  body: string, actions: seq<string>, hints: map<string, HintValue>,
                  expireTimeout: int32)
      returns (reply: Result<uint32, ReplyError>)
      requires Valid()
      modifies this
      ensures Valid()
      ensures nextId == old(nextId) + 1
      ensures var replaced := replacesId != 0 && replacesId in old(notifications);
              var nid := if replaced then replacesId else old(nextId);
              && reply == UInt32Reply(nid)
              && (!replaced ==> nid !in old(notifications) && nid !in ShownIds(old(pending)))
              && notifications == (if replaced then old(notifications) - {replacesId}
                                   else old(notifications))
              && pending == old(pending)
                            + (if replaced then [IdleClose(old(notifications)[replacesId])] else [])
                            + [IdleShow(nid, summary, body, appIcon, actions)]
      ensures stack == old(stack) && signals == old(signals)
    {
      var nid := nextId;
      nextId := nextId + 1;
      var closing: seq<IdleCallback> := [];
      if replacesId != 0 && replacesId in notifications {
        var oldWin := notifications[replacesId];
        closing := [IdleClose(oldWin)];
        notifications := notifications - {replacesId};
        nid := replacesId;
      }
      var show := IdleShow(nid, summary, body, appIcon, actions);
      assert nid !in ShownIds(pending);
      QueueShow(pending, closing, show);
      DistinctAppend(ShownIds(pending), nid);
      pending := pending + closing + [show];
      reply := UInt32Reply(nid);
    }

    /**
     The `show_notification` idle callback: registers the new window under `nid`
     and puts it at the bottom of the stack, at the margin of that position.
     */
    method ShowNotification(nid: nat, summary: string, body: string, icon: string,
                            actions: seq<string>)
      requires Valid()
      requires 1 <= nid < nextId && nid !in notifications && nid !in ShownIds(pending)
      modifies this
      ensures Valid()
      ensures |actions| % 2 == 0 ==>
                && |stack| == |old(stack)| + 1
                && stack[..|old(stack)|] == old(stack)
                && fresh(stack[|old(stack)|])
                && stack[|old(stack)|].Displays(nid, summary, body, icon, actions)
                && stack[|old(stack)|].topMargin == TopMargin(|old(stack)|)
                && notifications == old(notifications)[nid := stack[|old(stack)|]]
      ensures |actions| % 2 != 0 ==> stack == old(stack) && notifications == old(notifications)
      ensures nextId == old(nextId) && pending == old(pending) && signals == old(signals)
    {
      var made := NotificationWindow.Open(nid, summary, body, icon, stack, actions);
      if made.Ok? {
        var win := made.value;
        notifications := notifications[nid := win];
        stack := stack + [win];
      }
    }

    /**
     The window's `close-request` handler: takes the window out of the stack if it
     is there, moves every window below it up one slot, and emits
     `NotificationClosed(nid, 2)` in every case. The map keeps its entry.
     */
    method OnCloseRequest(w: NotificationWindow)
      requires Valid()
      modifies this, stack
      ensures Valid()
      ensures stack == if w in old(stack) then RemoveFirst(old(stack), w) else old(stack)
      ensures w !in stack
      ensures w.topMargin == old(w.topMargin)
      ensures signals == old(signals) + [NotificationClosed(w.nid, Dismissed)]
      ensures notifications == old(notifications) && pending == old(pending)
      ensures nextId == old(nextId)
    {
      if w in stack {
        RemoveFirstFromDistinct(stack, w);
        stack := RemoveFirst(stack, w);
        assert forall i | 0 <= i < |stack| :: stack[i] in old(stack);
        Relayout();
      }
      signals := signals + [NotificationClosed(w.nid, Dismissed)];
    }

    /** Gives every window of the stack the top margin of its position. */
    method Relayout()
      requires Distinct(stack)
      requires forall i | 0 <= i < |stack| :: !stack[i].closed
      modifies stack
      ensures forall i | 0 <= i < |stack| :: stack[i].topMargin == TopMargin(i)
      ensures forall i | 0 <= i < |stack| :: !stack[i].closed
    {
      var i := 0;
      while i < |stack|
        invariant 0 <= i <= |stack|
        invariant forall j | 0 <= j < i :: stack[j].topMargin == TopMargin(j)
        invariant forall j | 0 <= j < |stack| :: !stack[j].closed
      {
        stack[i].topMargin := TopMargin(i);
        i := i + 1;
      }
    }

    /**
     `close()` on a window: a window still open runs its `close-request` handler,
     which lets the close go ahead, so the window is destroyed; on a window
     already destroyed it does nothing, and no signal is emitted.
     */
    method Close(w: NotificationWindow)
      requires Valid()
      modifies this, stack, w
      ensures Valid() && w.closed
      ensures stack == if w in old(stack) then RemoveFirst(old(stack), w) else old(stack)
      ensures signals == old(signals)
                         + (if old(w.closed) then [] else [NotificationClosed(w.nid, Dismissed)])
      ensures notifications == old(notifications) && pending == old(pending)
      ensures nextId == old(nextId)
    {
      if !w.closed {
        OnCloseRequest(w);
        w.closed := true;
      }
    }

    /**
     The end of a fade-out: the window is closed, which runs its `close-request`
     handler if it is still open, and then `NotificationClosed(nid, reason)` is emitted.
     */
    method FadeOutFinished(w: NotificationWindow, reason: nat)
      requires Valid()
      modifies this, stack, w
      ensures Valid() && w.closed
      ensures stack == if w in old(stack) then RemoveFirst(old(stack), w) else old(stack)
      ensures signals == old(signals)
                         + (if old(w.closed) then [] else [NotificationClosed(w.nid, Dismissed)])
                         + [NotificationClosed(w.nid, reason)]
      ensures notifications == old(notifications) && pending == old(pending)
      ensures nextId == old(nextId)
    {
      Close(w);
      signals := signals + [NotificationClosed(w.nid, reason)];
    }

    /** The main loop runs the oldest idle callback. */
    method RunIdle()
      requires Valid() && pending != []
      modifies this, stack, if pending[0].IdleClose? then {pending[0].win} else {}
      ensures Valid()
      ensures nextId == old(nextId) && pending == old(pending[1..])
      ensures old(pending[0]).IdleClose? ==>
                var w := old(pending[0]).win;
                && w.closed
                && stack == (if w in old(stack) then RemoveFirst(old(stack), w) else old(stack))
                && signals == old(signals)
                              + (if old(w.closed) then [] else [NotificationClosed(w.nid, Dismissed)])
                && notifications == old(notifications)
      ensures old(pending[0]).IdleShow? ==>
                var c := old(pending[0]);
                && signals == old(signals)
                && (|c.actions| % 2 == 0 ==>
                      && |stack| == |old(stack)| + 1
                      && stack[..|old(stack)|] == old(stack)
                      && fresh(stack[|old(stack)|])
                      && stack[|old(stack)|].Displays(c.nid, c.summary, c.body, c.icon, c.actions)
                      && stack[|old(stack)|].topMargin == TopMargin(|old(stack)|)
                      && notifications == old(notifications)[c.nid := stack[|old(stack)|]])
                && (|c.actions| % 2 != 0 ==>
                      stack == old(stack) && notifications == old(notifications))
    {
      var c := pending[0];
      PopPending(pending);
      pending := pending[1..];
      match c {
        case IdleClose(w) =>
          Close(w);
        case IdleShow(nid, summary, body, icon, actions) =>
          ShowNotification(nid, summary, body, icon, actions);
      }
    }
  }

  /**
   A client run: a replace sent before the main loop has shown the notification it
   names gets a fresh id; one sent after it gets the old id back, and the old id's
   entry is gone until the new window is shown.
   */
  method ReplaceScenario()
  {
    var service := new NotificationService();
    var first := service.Notify("app", 0, "", "one", "", [], map[], -1);
    assert first == Ok(1);
    var early := service.Notify("app", 1, "", "two", "", [], map[], -1);
    assert early == Ok(2);
    service.RunIdle();
    assert 1 in service.notifications;
    var late := service.Notify("app", 1, "", "three", "", [], map[], 3000);
    assert late == Ok(1) && service.nextId == 4;
    assert 1 !in service.notifications;
  }

  /**
   A client run: a notification expires, and a later replace of its id closes a
   window that is already destroyed, so no further signal is emitted.
   */
  method ExpiryScenario()
  {
    var service := new NotificationService();
    var first := service.Notify("app", 0, "", "one", "", [], map[], -1);
    service.RunIdle();
    var w := service.notifications[1];
    service.FadeOutFinished(w, Expired);
    assert service.signals == [NotificationClosed(1, Dismissed), NotificationClosed(1, Expired)];
    var again := service.Notify("app", 1, "", "two", "", [], map[], -1);
    assert again == Ok(1);
    service.RunIdle();
    assert service.signals == [NotificationClosed(1, Dismissed), NotificationClosed(1, Expired)];
  }

  /** The capabilities `GetCapabilities` announces. */
  function GetCapabilities(): (caps: seq<string>)
    ensures "body" in caps && "actions" in caps && |caps| == 2
  {
    ["body", "actions"]
  }

  /** The `a{sv}` dictionary `GetServerInformation` returns. */
  function GetServerInformation(): (info: map<string, string>)
    ensures info.Keys == {"name", "vendor", "version", "spec_version"}
    ensures info["spec_version"] == "1.2"
  {
    map["name" := "YuriNotify", "vendor" := "LonelyObserver0", "version" := "1.0",
        "spec_version" := "1.2"]
  }
}
