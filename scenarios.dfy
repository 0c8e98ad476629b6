/** Client walks through the app: each method drives the model the way the
    user interface does and asserts what the user then sees, using only the
    contracts of NotifyApp. */
module Scenarios {
  import opened Wrappers
  import opened NotifyApp
  import Offsets

  /** First launch, nothing saved: an empty list and the default settings. */
  method FirstLaunch() {
    var defaults := new Store(map[]);
    var app := new EvilNotify(defaults);
    var screen := new ContentView(app);
    screen.OnAppear();
    app.LoadSettings();
    assert screen.notifications == [];
    assert !app.settings.darkmode && app.settings.confirmpost;
  }

  /** Adding one notification persists it; the next launch loads the same list. */
  method AddThenRelaunch(id: Uuid) {
    var defaults := new Store(map[]);
    var app := new EvilNotify(defaults);
    var screen := new ContentView(app);
    screen.OnAppear();
    screen.notifkey, screen.notiflabel := "com.apple.test", "Test";
    screen.Add(id);
    assert screen.notifications == [NotificationItem(id, "com.apple.test", "Test")];
    assert screen.notifkey == "" && screen.notiflabel == "";

    var relaunched := new EvilNotify(defaults);
    var next := new ContentView(relaunched);
    next.OnAppear();
    assert next.notifications == [NotificationItem(id, "com.apple.test", "Test")];
  }

  /** An empty label blocks the add: nothing changes, nothing is written. */
  method AddWithEmptyLabel(id: Uuid) {
    var defaults := new Store(map[]);
    var app := new EvilNotify(defaults);
    var screen := new ContentView(app);
    screen.notifkey := "com.apple.test";
    screen.Add(id);
    assert screen.notifications == [] && screen.notifkey == "com.apple.test";
    assert defaults.slots == map[];
  }

  /** A slot that does not decode leaves the list as it was. */
  method UndecodableList() {
    var defaults := new Store(map[StorageKey := Undecodable]);
    var app := new EvilNotify(defaults);
    var screen := new ContentView(app);
    screen.OnAppear();
    assert screen.notifications == [];
  }

  /** Dragging the first of three items below the last. */
  lemma MoveFirstToEnd<T>(a: T, b: T, c: T)
    ensures Offsets.Move([a, b, c], {0}, 3) == [b, c, a]
  {
    Offsets.MoveOne([a, b, c], 0, 3);
  }

  /** Deleting the middle one of three items. */
  lemma RemoveMiddle<T>(a: T, b: T, c: T)
    ensures Offsets.Remove([a, b, c], {1}) == [a, c]
  {
    Offsets.RemoveOne([a, b, c], 1);
  }

  /** Dragging the first of three items below the last, and the saved list. */
  method MoveToEnd(a: NotificationItem, b: NotificationItem, c: NotificationItem) {
    var defaults := new Store(map[]);
    var app := new EvilNotify(defaults);
    var screen := new ContentView(app);
    screen.notifications := [a, b, c];
    screen.Move({0}, 3);
    MoveFirstToEnd(a, b, c);
    assert StoredItems(defaults.slots) == Some([b, c, a]);
  }

  /** Swiping away the middle one of three items, and the saved list. */
  method DeleteMiddle(a: NotificationItem, b: NotificationItem, c: NotificationItem) {
    var defaults := new Store(map[]);
    var app := new EvilNotify(defaults);
    var screen := new ContentView(app);
    screen.notifications := [a, b, c];
    screen.Delete({1});
    RemoveMiddle(a, b, c);
    assert StoredItems(defaults.slots) == Some([a, c]);
  }

  /** Confirmation on: the first tap only raises the alert; confirming posts once. */
  method ConfirmedPost() {
    var defaults := new Store(map[]);
    var app := new EvilNotify(defaults);
    var screen := new ContentView(app);
    screen.TriggerPost("x");
    assert screen.showconfirm && screen.notiftopost == "x" && screen.posted == [];
    screen.ConfirmPost();
    assert !screen.showconfirm && screen.posted == ["x"];
  }

  /** Confirmation on: cancelling the alert posts nothing. */
  method CancelledPost() {
    var defaults := new Store(map[]);
    var app := new EvilNotify(defaults);
    var screen := new ContentView(app);
    screen.TriggerPost("x");
    screen.CancelPost();
    assert !screen.showconfirm && screen.posted == [];
  }

  /** Confirmation switched off and saved: after a relaunch a tap posts at once. */
  method DirectPostAfterRelaunch() {
    var defaults := new Store(map[]);
    var app := new EvilNotify(defaults);
    var screen := new ContentView(app);
    app.settings := app.settings.(confirmpost := false);
    screen.SaveSettings();

    var relaunched := new EvilNotify(defaults);
    relaunched.LoadSettings();
    var next := new ContentView(relaunched);
    next.OnAppear();
    next.TriggerPost("x");
    assert next.posted == ["x"] && !next.showconfirm;
  }
}
