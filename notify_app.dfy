/** The state of the evilnotify app: the settings record that the app owns,
    the notification list and the post-confirmation gate held by its one
    screen, and the key-value store both persist into. */
module NotifyApp {
  import opened Wrappers
  import Offsets

  /** A UUID, 128 bits; ids are generated outside the model and handed in. */
  type Uuid = x: int | 0 <= x < 0x1_0000_0000_0000_0000_0000_0000_0000_0000

  /** One user-defined notification: the name to post and the label shown for
      it (`title`, since `label` is a Dafny keyword). */
  datatype NotificationItem = NotificationItem(id: Uuid, key: string, title: string)

  /** The persisted preferences. */
  datatype Settings = Settings(darkmode: bool, confirmpost: bool)

  /** The record a freshly launched app starts from. */
  const DefaultSettings := Settings(darkmode := false, confirmpost := true)

  /** The two store slots. */
  const StorageKey := "com.roooot.evilnotify.savednotifs"
  const SettingsKey := "com.roooot.evilnotify.settings"

  /** What a store slot can hold: an encoded list, an encoded settings
      record, or data that decodes to neither (JSON that is malformed or of
      an older shape). */
  datatype Blob =
    | EncodedItems(items: seq<NotificationItem>)
    | EncodedSettings(settings: Settings)
    | Undecodable

  /** The list that reading the list slot and decoding it yields, if any. */
  function StoredItems(slots: map<string, Blob>): Option<seq<NotificationItem>> {
    if StorageKey in slots && slots[StorageKey].EncodedItems? then Some(slots[StorageKey].items) else None
  }

  /** The settings that reading the settings slot and decoding it yields, if any. */
  function StoredSettings(slots: map<string, Blob>): Option<Settings> {
    if SettingsKey in slots && slots[SettingsKey].EncodedSettings? then Some(slots[SettingsKey].settings) else None
  }

  /** The process-wide key-value store (the standard user defaults). */
  class Store {
    var slots: map<string, Blob>

    /** The store as the app finds it at launch. */
    constructor (initial: map<string, Blob>)
      ensures slots == initial
    {
      slots := initial;
    }

    /** Writes one slot, overwriting what it held. */
    method Set(key: string, blob: Blob)
      modifies this
      ensures slots == old(slots)[key := blob]
    {
      slots := slots[key := blob];
    }
  }

  /** The app itself: it owns the settings record that its screen is bound to. */
  class EvilNotify {
    const store: Store
    var settings: Settings

    constructor (store: Store)
      ensures this.store == store && settings == DefaultSettings
      ensures !settings.darkmode && settings.confirmpost
    {
      this.store := store;
      settings := DefaultSettings;
    }

    /** Replaces the settings with the stored record when the settings slot
        holds one that decodes; otherwise keeps them. */
    method LoadSettings()
      modifies this`settings
      ensures SettingsKey in store.slots && store.slots[SettingsKey].EncodedSettings? ==>
        settings == store.slots[SettingsKey].settings
      ensures !(SettingsKey in store.slots && store.slots[SettingsKey].EncodedSettings?) ==>
        settings == old(settings)
    {
      match StoredSettings(store.slots)
      case Some(decoded) =>
        settings := decoded;
      case None =>
    }
  }

  /** The app's screen: the list manager, its input fields and the
      confirmation gate. `settings` is the app's record, reached through
      `app`; `posted` logs every name handed to the notification primitive. */
  class ContentView {
    const app: EvilNotify
    const store: Store
    var notifkey: string
    var notiflabel: string
    var notifications: seq<NotificationItem>
    var showconfirm: bool
    var notiftopost: string
    ghost var posted: seq<string>

    constructor (app: EvilNotify)
      ensures this.app == app && store == app.store
      ensures notifkey == "" && notiflabel == "" && notifications == []
      ensures !showconfirm && notiftopost == "" && posted == []
    {
      this.app := app;
      store := app.store;
      notifkey, notiflabel, notifications := "", "", [];
      showconfirm, notiftopost := false, "";
      posted := [];
    }

    /** The list slot decodes to exactly the list on screen. */
    predicate Persisted()
      reads this, store
    {
      StoredItems(store.slots) == Some(notifications)
    }

    /** What the screen runs when it appears: load the list, then the settings. */
    method OnAppear()
      modifies this`notifications, app`settings
      ensures StoredItems(store.slots).Some? ==> notifications == StoredItems(store.slots).value && Persisted()
      ensures StoredItems(store.slots).None? ==> notifications == old(notifications)
      ensures StoredSettings(store.slots).Some? ==> app.settings == StoredSettings(store.slots).value
      ensures StoredSettings(store.slots).None? ==> app.settings == old(app.settings)
    {
      LoadNotifs();
      LoadSettings();
    }

    /** Appends a new item built from the two input fields, persists the
        list and clears the fields; does nothing at all when either field is
        empty. */
    method Add(id: Uuid)
      modifies this`notifications, this`notifkey, this`notiflabel, store
      ensures old(notifkey) == "" || old(notiflabel) == "" ==>
        && notifications == old(notifications)
        && notifkey == old(notifkey) && notiflabel == old(notiflabel)
        && store.slots == old(store.slots)
      ensures old(notifkey) != "" && old(notiflabel) != "" ==>
        && notifications == old(notifications) + [NotificationItem(id, old(notifkey), old(notiflabel))]
        && notifkey == "" && notiflabel == ""
        && store.slots == old(store.slots)[StorageKey := EncodedItems(notifications)]
        && Persisted()
    {
      if notifkey == "" || notiflabel == "" {
        return;
      }
      var newItem := NotificationItem(id, notifkey, notiflabel);
      notifications := notifications + [newItem];
      SaveNotifs();
      notifkey := "";
      notiflabel := "";
    }

    /** Removes the items at the given offsets and persists the list. */
    method Delete(offsets: set<int>)
      requires Offsets.InRange(offsets, |notifications|)
      modifies this`notifications, store
      ensures notifications == Offsets.Remove(old(notifications), offsets)
      ensures |notifications| == |old(notifications)| - |offsets|
      ensures store.slots == old(store.slots)[StorageKey := EncodedItems(notifications)]
      ensures Persisted()
    {
      notifications := Offsets.Remove(notifications, offsets);
      SaveNotifs();
    }

    /** Moves the items at the given offsets to the destination offset and
        persists the list. */
    method Move(source: set<int>, destination: int)
      requires Offsets.InRange(source, |notifications|) && 0 <= destination <= |notifications|
      modifies this`notifications, store
      ensures notifications == Offsets.Move(old(notifications), source, destination)
      ensures multiset(notifications) == multiset(old(notifications))
      ensures store.slots == old(store.slots)[StorageKey := EncodedItems(notifications)]
      ensures Persisted()
    {
      Offsets.MovePermutes(notifications, source, destination);
      notifications := Offsets.Move(notifications, source, destination);
      SaveNotifs();
    }

    /** The gate: with confirmation on, remember the name and raise the
        confirmation alert; with it off, post at once. */
    method TriggerPost(key: string)
      modifies this`notiftopost, this`showconfirm, this`posted
      ensures app.settings.confirmpost ==>
        notiftopost == key && showconfirm && posted == old(posted)
      ensures !app.settings.confirmpost ==>
        posted == old(posted) + [key] &&
        notiftopost == old(notiftopost) && showconfirm == old(showconfirm)
    {
      if app.settings.confirmpost {
        notiftopost := key;
        showconfirm := true;
      } else {
        Post(key);
      }
    }

    /** Hands the name to the notification primitive. */
    method Post(key: string)
      modifies this`posted
      ensures posted == old(posted) + [key]
    {
      posted := posted + [key];
    }

    /** The alert's "Post" button: posts the remembered name once and
        dismisses the alert. */
    method ConfirmPost()
      requires showconfirm
      modifies this`posted, this`showconfirm
      ensures posted == old(posted) + [notiftopost]
      ensures !showconfirm
    {
      Post(notiftopost);
      showconfirm := false;
    }

    /** The alert's cancel button: dismisses the alert and posts nothing. */
    method CancelPost()
      requires showconfirm
      modifies this`showconfirm
      ensures !showconfirm
    {
      showconfirm := false;
    }

    /** Writes the whole list into the list slot. */
    method SaveNotifs()
      modifies store
      ensures store.slots == old(store.slots)[StorageKey := EncodedItems(notifications)]
      ensures Persisted()
    {
      store.Set(StorageKey, EncodedItems(notifications));
    }

    /** Replaces the list with the stored one when the list slot holds a
        list that decodes; otherwise keeps it. */
    method LoadNotifs()
      modifies this`notifications
      ensures StorageKey in store.slots && store.slots[StorageKey].EncodedItems? ==>
        notifications == store.slots[StorageKey].items && Persisted()
      ensures !(StorageKey in store.slots && store.slots[StorageKey].EncodedItems?) ==>
        notifications == old(notifications)
    {
      match StoredItems(store.slots)
      case Some(decoded) =>
        notifications := decoded;
      case None =>
    }

    /** Writes the settings record into the settings slot. */
    method SaveSettings()
      modifies store
      ensures store.slots == old(store.slots)[SettingsKey := EncodedSettings(app.settings)]
      ensures StoredSettings(store.slots) == Some(app.settings)
    {
      store.Set(SettingsKey, EncodedSettings(app.settings));
    }

    /** Replaces the bound settings with the stored record when the settings
        slot holds one that decodes; otherwise keeps them. */
    method LoadSettings()
      modifies app`settings
      ensures SettingsKey in store.slots && store.slots[SettingsKey].EncodedSettings? ==>
        app.settings == store.slots[SettingsKey].settings
      ensures !(SettingsKey in store.slots && store.slots[SettingsKey].EncodedSettings?) ==>
        app.settings == old(app.settings)
    {
      match StoredSettings(store.slots)
      case Some(decoded) =>
        app.settings := decoded;
      case None =>
    }
  }
}
