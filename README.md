# evilnotify — a Dafny model of the notification list and post gate

evilnotify is a one-screen iOS utility. The user keeps a list of named
system notifications (a notification name, the `key`, plus a display
`label`) and posts any of them on demand through the Darwin `notify_post`
primitive. A settings record decides whether a post first asks for
confirmation. The list and the settings are each saved as one blob in the
app's key-value store (the standard user defaults).

This project models the state holder behind that screen:

- `offsets.dfy`, module `Offsets`. These are the collection operations the
  list manager relies on, stated on sequences. `Remove` gives the meaning of
  Swift's `remove(atOffsets:)` and `Move` gives the meaning of
  `move(fromOffsets:toOffset:)`. An offset set (Foundation's `IndexSet`) is a
  `set<int>`. Both operations are built from `Pick`, which takes the elements
  of a window whose position is (or is not) an offset. A second, index-level
  view, `Positions`, lists those positions in ascending order. The lemmas
  relate the two views and prove what callers rely on: lengths, permutation,
  relative order, and where the moved block lands.
- `notify_app.dfy`, module `NotifyApp`. It defines the `NotificationItem` and
  `Settings` records and three classes:
  - `Store` is the key-value store: a map from slot name to `Blob`.
  - `EvilNotify` is the app. It owns the `settings` record and loads it at
    launch.
  - `ContentView` is the screen. Its fields are the input fields
    `notifkey`/`notiflabel`, the list `notifications`, the gate state
    `showconfirm`/`notiftopost`, and a ghost log `posted` of every name handed
    to `notify_post`. It reaches the settings through the app it is bound to.
  Every method changes, in place, at most the fields its `modifies` clause
  names (an `Add` with an empty field, or a load from an undecodable slot,
  changes none). Its `ensures` clauses state the whole new state. `Persisted()` says
  the list slot decodes to the list on screen, and every successful mutation
  re-establishes it.
- `scenarios.dfy`, module `Scenarios`. Client methods drive the model the way
  the UI does and assert what the user then sees. The first launch with
  nothing saved gives an empty list and the default settings. After an add
  and a relaunch, the same list comes back. An empty label blocks the add. An
  undecodable slot is ignored. There is a drag and a swipe-delete. A
  confirmed post, a cancelled post and a direct post with confirmation turned
  off are each replayed. These scenarios rely on the contracts in `NotifyApp`
  and on the lemmas of `Offsets` (`MoveOne`, `RemoveOne`). The drag and the
  swipe-delete start from a three-item list assigned directly to the screen's
  `notifications` field, in place of three adds.

Modelling choices:

- The store is a map from slot name to `Blob`, matching the two slots at
  `evilnotify/ContentView.swift:25-26`. A `Blob` is an encoded list, an
  encoded settings record, or `Undecodable`. A load "finds nothing" when the
  slot is missing, holds `Undecodable`, or holds the other kind of blob. That
  is how the model represents a JSON decode failure.
- Ids are passed in: `Add(id)` receives the id that `UUID()` would have
  generated. The model claims nothing about whether ids are unique.
- The item field the source calls `label` is called `title` here, because
  `label` is a Dafny keyword.
- Delete and move take sets of offsets, because the code receives
  `IndexSet`s. Deleting or moving one item is the special case, stated by
  `Offsets.RemoveOne` and `Offsets.MoveOne` (with `Offsets.MoveInPlace` for
  the two destinations where nothing moves).
- Swift stops the program when an offset is out of range or the destination
  lies beyond the end. The model therefore makes those bounds `requires`
  clauses on `Delete`/`Move` and on `Remove`/`Move`.
- The alert's two buttons exist only while the alert is shown. So
  `ConfirmPost` and `CancelPost` require `showconfirm`. Tapping either
  button dismisses the alert, which sets `showconfirm` to false.

## Model

| member | source | states |
|---|---|---|
| Offsets.Remove | evilnotify/ContentView.swift:128-131 | removing the items at in-range offsets leaves one item fewer per offset |
| Offsets.RemoveAt | evilnotify/ContentView.swift:129 | the survivors are exactly the items at the positions that are not offsets, each taken once, in their original ascending order |
| Offsets.RemoveMultiset | evilnotify/ContentView.swift:129 | what the delete takes out is exactly the multiset of items at the offsets |
| Offsets.RemoveOne | evilnotify/ContentView.swift:129 | deleting the single offset i gives the list without its i-th item |
| Offsets.Selected | evilnotify/ContentView.swift:134 | the items at the offsets number exactly as many as the offsets |
| Offsets.SelectedAt | evilnotify/ContentView.swift:134 | the items at the offsets are taken in ascending offset order, one per offset |
| Offsets.Move | evilnotify/ContentView.swift:133-136 | moving keeps the length of the list |
| Offsets.MovePermutes | evilnotify/ContentView.swift:134 | the moved list is a permutation (same multiset) of the original |
| Offsets.MoveBlocks | evilnotify/ContentView.swift:134 | the moved items form one block, in their original relative order. It starts at the destination less the number of moved items before it. Cutting the block out leaves exactly the non-moved items in their original order |
| Offsets.MoveInPlace | evilnotify/ContentView.swift:134 | dragging one item to just before or just after itself leaves the list unchanged |
| Offsets.MoveOneBack | evilnotify/ContentView.swift:134 | dragging item i to an offset j at or before it puts it just before the item that was at j; all other items keep their order |
| Offsets.MoveOneForward | evilnotify/ContentView.swift:134 | dragging item i to an offset j after it puts it just before the item that was at j (at the end when j is the length); all other items keep their order |
| Offsets.MoveOne | evilnotify/ContentView.swift:134 | the one-item move for every valid i and j: the two cases above |
| Offsets.NoOffsets | evilnotify/ContentView.swift:128-136 | with an empty offset set, neither delete nor move changes the list |
| Scenarios.MoveFirstToEnd | evilnotify/ContentView.swift:134 | moving offset 0 of [a, b, c] to offset 3 gives [b, c, a] |
| Scenarios.RemoveMiddle | evilnotify/ContentView.swift:129 | removing offset 1 of [a, b, c] gives [a, c] |
| NotifyApp.Store.Set | evilnotify/ContentView.swift:155 | writing a slot replaces that slot's value and leaves every other slot unchanged |
| NotifyApp.EvilNotify.constructor | evilnotify/ContentView.swift:268 | the app starts with the default settings: dark mode off, confirmation on |
| NotifyApp.EvilNotify.LoadSettings | evilnotify/ContentView.swift:281-286 | the settings become the stored record when the settings slot holds one that decodes; otherwise they stay as they were |
| NotifyApp.ContentView.constructor | evilnotify/ContentView.swift:18-23 | the screen starts with empty input fields, an empty list, no alert shown, no remembered name and nothing posted |
| NotifyApp.ContentView.OnAppear | evilnotify/ContentView.swift:101-104 | on appearing, the screen loads the list and then the settings, each under the load-if-decodable rule |
| NotifyApp.ContentView.Add | evilnotify/ContentView.swift:119-126 | if either input field is empty, the list, the fields and the store are all unchanged. Otherwise exactly one item with those fields is appended at the end, the store's list slot holds the new list, and both fields are empty |
| NotifyApp.ContentView.Delete | evilnotify/ContentView.swift:128-131 | the list becomes Remove of the old list, the length drops by the number of offsets, and the list slot holds the new list |
| NotifyApp.ContentView.Move | evilnotify/ContentView.swift:133-136 | the list becomes Move of the old list and is a permutation of it, and the list slot holds the new list |
| NotifyApp.ContentView.TriggerPost | evilnotify/ContentView.swift:138-145 | with confirmation on, the name is remembered, the alert is raised and nothing is posted. With it off, the name is posted exactly once and the gate state is unchanged |
| NotifyApp.ContentView.Post | evilnotify/ContentView.swift:147-151 | the name is appended to the log of posts, exactly once |
| NotifyApp.ContentView.ConfirmPost | evilnotify/ContentView.swift:105-111 | from the alert, "Post" posts the remembered name exactly once and dismisses the alert |
| NotifyApp.ContentView.CancelPost | evilnotify/ContentView.swift:105-111 | from the alert, cancel dismisses it and posts nothing |
| NotifyApp.ContentView.SaveNotifs | evilnotify/ContentView.swift:153-157 | the list slot holds the whole current list, so that loading it gives back the same list. No other slot changes |
| NotifyApp.ContentView.LoadNotifs | evilnotify/ContentView.swift:159-164 | the list becomes the stored list when the list slot holds one that decodes; otherwise it is unchanged |
| NotifyApp.ContentView.SaveSettings | evilnotify/ContentView.swift:166-170 | the settings slot holds the current settings, so that loading it gives them back. No other slot changes |
| NotifyApp.ContentView.LoadSettings | evilnotify/ContentView.swift:172-177 | the bound settings become the stored record when the settings slot holds one that decodes; otherwise they are unchanged |

## Left out

- SwiftUI layout is presentation only and is not modelled: the `body` views, the settings sheet and its `showsettings` flag, and the colour-scheme switching. The two toggles of the settings screen write `settings` directly; the scenarios model them as plain assignments.
- The credits section (`AsyncImage` avatars and opening GitHub URLs) is network and UI code and is not modelled.
- `notify_post` is a foreign Darwin call with no result, and the `print` logging around it only writes diagnostics. Both are represented only by appending to the ghost log `posted`.
- JSON encoding/decoding and `UserDefaults` are library code. They become the abstract map `Store.slots` and the `Blob` values. A decode failure is a slot that holds `Undecodable` or the wrong kind of blob.
- NotifyApp.ContentView.SaveNotifs: always writes. The source skips the write when `try? JSONEncoder().encode` fails, but encoding a list of strings and UUIDs cannot fail, so that branch is not modelled.
- NotifyApp.ContentView.SaveSettings: always writes, for the same reason. Encoding a record of two booleans cannot fail.
- `UUID()` generation happens outside the model. Ids are parameters, and the model makes no claim that they are unique.
- The two premade notification names are constants passed to `TriggerPost`, so they add no separate behaviour.
- NotifyApp.ContentView.Delete: an out-of-range offset stops a Swift program at run time. The model has no such failure path; it requires in-range offsets of its callers, which the list view always supplies.
- NotifyApp.ContentView.Move: the same for an out-of-range offset or a destination beyond the end of the list.
- Offsets.Remove: requires in-range offsets, for the same reason as NotifyApp.ContentView.Delete.
- Offsets.Move: requires in-range offsets and destination, for the same reason as NotifyApp.ContentView.Move.
