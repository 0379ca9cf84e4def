# YuriNC notification daemons, modelled in Dafny

YuriNC holds two daemons for the `org.freedesktop.Notifications` D-Bus interface
of the freedesktop.org Desktop Notifications Specification, version 1.2.

- `yurind.py` is a GTK 4 daemon. It gives each notification an id from a counter.
  It keeps a dictionary from id to popup window and a list (`stack`) of the windows
  on screen. Each window's top margin is `20 + 100 * position`, and it closes windows
  with a `NotificationClosed` signal.
- `yurinc.py` is a stateless bridge. It turns each `Notify` call into a
  `hyprctl notify <icon> <timeout> 0 <message>` command.

The model has three files:

- `protocol.dfy` (module `FreedesktopNotifications`): the wire types. These are
  `uint32` and `int32`, the hint values as the Python bindings unpack them, the
  `Result` type, and the reason codes 1 (expired) and 2 (dismissed).
- `yurind.dfy` (module `Yurind`): imperative.
  - `NotificationWindow` is a class. It has the window's `nid`, its content, its
    action buttons, a mutable `topMargin`, and a `closed` flag that records whether
    `close()` has destroyed the window.
  - `NotificationService` is a class with the fields of the Python object: `nextId`,
    `notifications` (a map) and `stack` (a sequence of windows). It also has two
    fields the Python object does not hold as such. `pending` is the FIFO of
    callbacks left for the GLib main loop with `idle_add`. `signals` is a ghost log
    of the emitted `NotificationClosed` signals.
  - `Valid()` is the invariant every method keeps:
    - every id handed out is below `nextId`;
    - each map entry `k` holds a window whose `nid` is `k`;
    - an id is either registered or waiting in exactly one pending
      `show_notification` callback, never both;
    - the stack holds no window twice and no destroyed window;
    - `stack[i].topMargin == 20 + 100 * i` for every position `i`.
  - `Notify` returns before its window exists. The gap is visible in the model: a
    replace that names an id whose window is still pending gets a fresh id
    (`ReplaceScenario`). A replace that arrives after the old window has expired
    closes a destroyed window and emits nothing more (`ExpiryScenario`, which uses
    reason 1 from the 4-second timer).
- `yurinc.dfy` (module `Yurinc`): pure functions and lemmas. They cover the
  urgency-to-icon lookup, the message, the timeout, Python's `str` on the two
  numbers, and the exact argument vector.

Behaviour as the code has it, which the model follows:

- A replace still uses up an id: `next_id` grows by one on every `Notify`.
- A replace answers with the old id and drops its map entry at once. It schedules the
  old window's `close` and then the new window. The new window goes to the bottom of
  the stack; it does not take the old window's place.
- Entries are never removed from `notifications` when a window closes. Only a
  replace removes one.
- `on_close_request` emits `NotificationClosed(nid, 2)` on every close request,
  whether or not the window was still in the stack. A fade-out then emits a second
  signal with its own reason, so one notification can be reported closed twice.
- `expire_timeout` and `hints` are ignored by `yurind.py`. Every window's auto-close
  is the fixed 4-second timer, which is not modelled.
- In `yurinc.py`, `0` and `-1` both give the 5000 ms default. The comment at
  `notificationdaemon.h:25` says otherwise; the code is followed.
- `yurind.py:174` declares `GetServerInformation` with signature `a{sv}`, where the
  specification calls for four strings. The model returns the dictionary.
- Python dictionary lookup treats `True` as the key `1` and `2.0` as the key `2`.
  A list or dict urgency cannot be a key: the lookup raises `TypeError` before the
  command is run. `Yurinc.AsDictKey` models this.
- `dbus.UInt32(nid)` raises for an id of 2^32 or more. The reply then becomes a
  D-Bus error, but the state changes of that call remain
  (`Yurind.UInt32Reply`).

Assumptions about the libraries:

- `close()` is `gtk_window_close` of GTK 4. On a window that is still shown, it runs the
  `close-request` handler at once. The handler returns `False`, so the window is then
  destroyed. On a window that is no longer realized, which includes a destroyed one,
  `close()` returns at once: no handler runs and no signal is emitted. The
  constructor shows the window (yurind.py:79), so every window starts open. This
  holds both for the idle callback `old_win.close` (yurind.py:155) and for the
  `self.close()` that ends a fade-out (yurind.py:108).
- An odd-length `actions` list makes the window constructor raise inside the idle
  callback. This happens before the window is registered, so the service state is
  unchanged. GLib then drops the callback.

## Model

| member | source | states |
|---|---|---|
| `Yurind.IndexOf` | yurind.py:119-120 | the index found holds the window and no earlier position does, so it is the first occurrence `list.remove` takes out |
| `Yurind.RemoveFirstIsDeletion` | yurind.py:120 | `stack.remove(w)` equals the list cut around the first occurrence of `w`: everything before it and everything after it stay, in order |
| `Yurind.RemoveFirstFromDistinct` | yurind.py:119-122 | on a stack without repeats, removal leaves a stack without repeats that holds exactly the other windows and not the removed one |
| `Yurind.ActionButtons` | yurind.py:57-64 | buttons are built from the pairs `(actions[2k], actions[2k+1])` in list order, `len/2` of them (`Paired`); this succeeds exactly when the length is even, otherwise it fails with an index error at `len(actions)` |
| `Yurind.NotificationWindow.constructor` | yurind.py:23-38 | the window keeps its nid and content, its top margin is `20 + 100 * depth`, and it starts open |
| `Yurind.NotificationWindow.Open` | yurind.py:23-83 | a fresh, open window that shows `nid`, summary, body and icon with the action pairs as buttons, at margin `20 + 100 * len(stack)`; or a failure exactly when `actions` has odd length |
| `Yurind.UInt32Reply` | yurind.py:160 | the reply carries the nid exactly when it fits in 32 bits, and is an error otherwise |
| `Yurind.NotificationService.constructor` | yurind.py:141-144 | `next_id` starts at 1, with an empty map, empty stack, no pending callbacks and no signals |
| `Yurind.NotificationService.Notify` | yurind.py:149-160 | `next_id` grows by exactly one on every call; a nonzero live `replaces_id` is returned and its key alone is removed, with a close of its old window queued; otherwise the previous `next_id` is returned, and it collides with no registered or pending id; then a `show_notification` is queued; the stack and signals are untouched; the invariant is kept |
| `Yurind.NotificationService.ShowNotification` | yurind.py:163-167 | with an even action list, nid maps to a fresh window appended at the tail, with earlier entries unchanged; it shows the given content with the action pairs as buttons, at margin `20 + 100 * old len(stack)` (its index after the append); with an odd list, nothing changes; the invariant is kept |
| `Yurind.NotificationService.Relayout` | yurind.py:121-122 | every window in the stack gets the margin `20 + 100 * index` |
| `Yurind.NotificationService.OnCloseRequest` | yurind.py:118-125 | the window leaves the stack if it was there, the rest keep their order and are laid out again; `(nid, 2)` is emitted either way; the map, the queue and the counter are unchanged; the invariant is kept |
| `Yurind.NotificationService.Close` | yurind.py:155 | `close()` on an open window runs the close-request handler, so it leaves the stack and `(nid, 2)` is emitted; on a destroyed window nothing changes and nothing is emitted; either way the window is destroyed afterwards; the invariant is kept |
| `Yurind.NotificationService.FadeOutFinished` | yurind.py:105-111 | a finished fade-out closes the window and then emits `(nid, reason)`: two signals, `(nid, 2)` first, if the window was still open; only `(nid, reason)` if it was already destroyed |
| `Yurind.NotificationService.RunIdle` | yurind.py:155-159 | the main loop runs the oldest idle callback, in FIFO order: a close acts as `Close` (no signal for a destroyed window); a show acts as `show_notification`, the new window showing the queued content and action pairs; the invariant is kept |
| `Yurind.GetCapabilities` | yurind.py:169-171 | exactly the two capabilities `body` and `actions` are announced |
| `Yurind.GetServerInformation` | yurind.py:173-180 | a dictionary with keys name, vendor, version and spec_version, where spec_version is `1.2` |
| `Yurinc.Urgency` | yurinc.py:46 | the `urgency` hint when present; otherwise a value that looks up as the key 1 |
| `Yurinc.Icon` | yurinc.py:47 | urgency 0, 1, 2 give icon `2 - urgency`, i.e. 2, 1, 0; every other hashable value gives 6, so the icon is in {0,1,2,6}; the lookup fails exactly for an unhashable urgency |
| `Yurinc.Message` | yurinc.py:48 | the message is the summary alone when the body is empty, otherwise the summary, the separator `": "` and the body; splitting at the summary's length gives back summary and body |
| `Yurinc.Timeout` | yurinc.py:49 | the timeout is always positive: `expire_timeout` when positive, 5000 for 0, -1 and every other non-positive value |
| `Yurinc.Decimal` | yurinc.py:54-55 | `str(n)` is a non-empty string of digits with no leading zero, and it starts with `0` exactly for 0 |
| `Yurinc.ParseDecimalOfDecimal` | yurinc.py:54-55 | reading `str(n)` back as a decimal numeral gives `n` |
| `Yurinc.DecimalOfParseDecimal` | yurinc.py:54-55 | every canonical decimal numeral is `str` of its value, so `str` is a bijection onto canonical numerals |
| `Yurinc.Notify` | yurinc.py:44-62 | the call fails exactly when the urgency is unhashable; otherwise it replies 0, whatever `replaces_id` is |
| `Yurinc.NotifyCommand` | yurinc.py:52-58 | the command is exactly `["hyprctl", "notify", str(icon), str(timeout), "0", message]`: six arguments, the icon reads back as the looked-up code in {0,1,2,6}, the timeout reads back as the positive normalised value, and the whole message is one argument |
| `Yurinc.GetCapabilities` | yurinc.py:67-68 | exactly `["body"]` is announced |
| `Yurinc.GetServerInformation` | yurinc.py:70-71 | the fourth field, spec_version, is `1.2` |

## Left out

- Yurind.GetServerInformation: the contract fixes the keys and spec_version only. The name `YuriNotify`, vendor `LonelyObserver0` and version `1.0` are in the body but not stated.
- Yurinc.GetServerInformation: the contract fixes spec_version only. The name `HyprlandNotifier`, vendor `Custom` and version `1.0` are in the body but not stated.
- GTK widget building, CSS loading and layer-shell calls (yurind.py:28-94), apart from the top margin and the action pairs. They are UI through foreign libraries, and the model assumes they succeed. As written, the constructor uses `GtkLayerShell` where the module is imported as `Gtk4LayerShell`. It also connects `button-press-event` and calls `set_shadow_type`, which GTK 4 does not provide. These calls are not modelled. As written, the constructor raises `NameError` at yurind.py:34, so every `show_notification` callback fails: no window is ever registered or put on the stack, and every `Notify` answers with a fresh id. The stack, margin and close-signal contracts describe the constructor as intended, one that builds its window.
- The opacity stepping of `fade_in` and `fade_out` (yurind.py:96-116). It is floating-point animation driven by GLib timeouts. Only its end is modelled, as `FadeOutFinished`.
- The fixed 4-second auto-close timer (yurind.py:83), `on_click` (yurind.py:127-129) and `on_action_clicked` with its `ActionInvoked` call over the session bus (yurind.py:131-137). These are a timer and a D-Bus call. The 4-second timer, and `on_click` if its `button-press-event` connection succeeded, end in a finished fade-out, which is `FadeOutFinished`. `on_action_clicked` does not get there. At yurind.py:136 it calls `ActionInvoked` as a blocking method on the daemon's own bus name. The service exports no such method (in the specification `ActionInvoked` is a signal), and the call is made from the main-loop thread that would have to answer it. So the call raises a `DBusException` before `self.fade_out(2)` at yurind.py:137. An action click emits no `NotificationClosed` and leaves the window on the stack.
- D-Bus plumbing: bus names, method decorators, the `NotificationClosed` signal body, `main` and `main1` (yurind.py:145-146, 182-202), and the pydbus publication (yurinc.py:73-79).
- The `subprocess.run` call and its caught exception (yurinc.py:51-60). Only the argument vector it is given is modelled.
- `yurind.py` has no `CloseNotification` method, so the model has none for it.
- Yurinc.CloseNotification: yurinc.py:64-65 does nothing and returns nothing. The function returns `()`, and there is nothing for a contract to state.
- Hint values of D-Bus struct type, which unpack to Python tuples, and non-finite doubles. They are not in `HintValue`.
- yurincv3.py: a GTK 3 popup shown from a second thread. This is concurrency and UI with no bookkeeping.
- notificationdaemon.h: declarations only, with no bodies. main.cpp is process start-up. test_notify.py is a one-shot client.
