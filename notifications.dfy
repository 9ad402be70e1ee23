/** Desktop notifications (src/electron/notifications.ts): a gate that is open by
    default, option defaults, four fixed templates and a lazily created single
    instance. Showing a notification is appending it to the log `shown`. */
module Notifications {
  import opened Wrappers
  import Decimal

  datatype Urgency = Normal | Low | Critical
  datatype TimeoutType = DefaultTimeout | Never

  /** What a caller passes: the optional fields are `None` when omitted. */
  datatype NotificationOptions = NotificationOptions(
    title: string,
    body: string,
    urgency: Option<Urgency>,
    silent: Option<bool>,
    icon: Option<string>,
    timeoutType: Option<TimeoutType>)

  /** What is handed to the operating system. */
  datatype Notification = Notification(
    title: string,
    body: string,
    urgency: Urgency,
    silent: bool,
    icon: Option<string>,
    timeoutType: TimeoutType)

  /** The window a manager is created for; it is stored and never used. */
  datatype Window = Window(id: nat)

  /** The `??` defaults: normal urgency, not silent, default timeout; a supplied
      value passes through, and title, body and icon are copied. */
  function WithDefaults(o: NotificationOptions): (n: Notification)
    ensures n.title == o.title && n.body == o.body && n.icon == o.icon
    ensures o.urgency.Some? ==> n.urgency == o.urgency.value
    ensures o.urgency.None? ==> n.urgency == Normal
    ensures o.silent.Some? ==> n.silent == o.silent.value
    ensures o.silent.None? ==> !n.silent
    ensures o.timeoutType.Some? ==> n.timeoutType == o.timeoutType.value
    ensures o.timeoutType.None? ==> n.timeoutType == DefaultTimeout
  {
    Notification(o.title, o.body, o.urgency.GetOr(Normal), o.silent.GetOr(false), o.icon,
                 o.timeoutType.GetOr(DefaultTimeout))
  }

  function PrayerBody(prayerName: string, time: string): string {
    "It's time for " + prayerName + " prayer (" + time + ")"
  }

  function BookmarkBody(surahName: string, ayahNumber: int): string {
    "Bookmarked " + surahName + " - Ayah " + Decimal.IntToString(ayahNumber)
  }

  function PrayerTimeOptions(prayerName: string, time: string): NotificationOptions {
    NotificationOptions("Prayer Time", PrayerBody(prayerName, time), Some(Critical), None, None, Some(Never))
  }

  function BookmarkOptions(surahName: string, ayahNumber: int): NotificationOptions {
    NotificationOptions("Bookmark Added", BookmarkBody(surahName, ayahNumber), Some(Low), None, None, None)
  }

  function ErrorOptions(message: string): NotificationOptions {
    NotificationOptions("Error", message, Some(Critical), None, None, None)
  }

  function SuccessOptions(message: string): NotificationOptions {
    NotificationOptions("Success", message, Some(Normal), None, None, None)
  }

  /** The prayer reminder is critical, never times out and makes a sound; for a
      given prayer the body tells the times apart. */
  lemma PrayerTimeNotification(prayerName: string, time: string, time2: string)
    ensures var n := WithDefaults(PrayerTimeOptions(prayerName, time));
      && n.title == "Prayer Time" && n.urgency == Critical && n.timeoutType == Never && !n.silent
      && n.body[..14] == "It's time for " && n.body[|n.body| - 1] == ')'
    ensures PrayerBody(prayerName, time) == PrayerBody(prayerName, time2) ==> time == time2
  {
    var a := "It's time for " + prayerName + " prayer (";
    if PrayerBody(prayerName, time) == PrayerBody(prayerName, time2) {
      assert time + ")" == PrayerBody(prayerName, time)[|a|..];
      assert time2 + ")" == PrayerBody(prayerName, time2)[|a|..];
      assert time == (time + ")")[..|time|];
      assert time2 == (time2 + ")")[..|time2|];
    }
  }

  /** The bookmark notice is low urgency with the default timeout; for a given surah
      its body tells the ayah numbers apart. */
  lemma BookmarkNotification(surahName: string, ayahNumber: int, ayah2: int)
    ensures var n := WithDefaults(BookmarkOptions(surahName, ayahNumber));
      && n.title == "Bookmark Added" && n.urgency == Low && n.timeoutType == DefaultTimeout
      && n.body[..11] == "Bookmarked "
    ensures BookmarkBody(surahName, ayahNumber) == BookmarkBody(surahName, ayah2) ==> ayahNumber == ayah2
  {
    var a := "Bookmarked " + surahName + " - Ayah ";
    if BookmarkBody(surahName, ayahNumber) == BookmarkBody(surahName, ayah2) {
      assert Decimal.IntToString(ayahNumber) == BookmarkBody(surahName, ayahNumber)[|a|..];
      assert Decimal.IntToString(ayah2) == BookmarkBody(surahName, ayah2)[|a|..];
      Decimal.IntToStringInjective(ayahNumber, ayah2);
    }
  }

  /** Errors are critical and successes normal; both carry the message as their body. */
  lemma MessageNotifications(message: string)
    ensures WithDefaults(ErrorOptions(message)) == Notification("Error", message, Critical, false, None, DefaultTimeout)
    ensures WithDefaults(SuccessOptions(message)) == Notification("Success", message, Normal, false, None, DefaultTimeout)
  {
  }

  class NotificationManager {
    var mainWindow: Window
    var isEnabled: bool
    /** Notifications handed to the operating system, oldest first. */
    var shown: seq<Notification>

    constructor (mainWindow: Window)
      ensures this.mainWindow == mainWindow && isEnabled && shown == []
    {
      this.mainWindow := mainWindow;
      isEnabled := true;
      shown := [];
    }

    /** While disabled nothing is shown; otherwise the options with their defaults. */
    method ShowNotification(o: NotificationOptions)
      modifies this
      ensures isEnabled == old(isEnabled) && mainWindow == old(mainWindow)
      ensures isEnabled ==> shown == old(shown) + [WithDefaults(o)]
      ensures !isEnabled ==> shown == old(shown)
    {
      if !isEnabled {
        return;
      }
      shown := shown + [WithDefaults(o)];
    }

    method ShowPrayerTimeNotification(prayerName: string, time: string)
      modifies this
      ensures isEnabled == old(isEnabled) && mainWindow == old(mainWindow)
      ensures isEnabled ==> shown == old(shown) + [WithDefaults(PrayerTimeOptions(prayerName, time))]
      ensures !isEnabled ==> shown == old(shown)
    {
      ShowNotification(PrayerTimeOptions(prayerName, time));
    }

    method ShowBookmarkNotification(surahName: string, ayahNumber: int)
      modifies this
      ensures isEnabled == old(isEnabled) && mainWindow == old(mainWindow)
      ensures isEnabled ==> shown == old(shown) + [WithDefaults(BookmarkOptions(surahName, ayahNumber))]
      ensures !isEnabled ==> shown == old(shown)
    {
      ShowNotification(BookmarkOptions(surahName, ayahNumber));
    }

    method ShowErrorNotification(message: string)
      modifies this
      ensures isEnabled == old(isEnabled) && mainWindow == old(mainWindow)
      ensures isEnabled ==> shown == old(shown) + [WithDefaults(ErrorOptions(message))]
      ensures !isEnabled ==> shown == old(shown)
    {
      ShowNotification(ErrorOptions(message));
    }

    method ShowSuccessNotification(message: string)
      modifies this
      ensures isEnabled == old(isEnabled) && mainWindow == old(mainWindow)
      ensures isEnabled ==> shown == old(shown) + [WithDefaults(SuccessOptions(message))]
      ensures !isEnabled ==> shown == old(shown)
    {
      ShowNotification(SuccessOptions(message));
    }

    method Enable()
      modifies this
      ensures isEnabled && mainWindow == old(mainWindow) && shown == old(shown)
    {
      isEnabled := true;
    }

    method Disable()
      modifies this
      ensures !isEnabled && mainWindow == old(mainWindow) && shown == old(shown)
    {
      isEnabled := false;
    }
  }

  /** The class's static `instance` slot. */
  class NotificationRegistry {
    var instance: NotificationManager?

    constructor ()
      ensures instance == null
    {
      instance := null;
    }

    /** The first call creates the manager for its window; every later call returns
        that same manager and ignores its argument. */
    method GetInstance(mainWindow: Window) returns (m: NotificationManager)
      modifies this
      ensures old(instance) != null ==> m == old(instance)
      ensures old(instance) == null ==> fresh(m) && m.mainWindow == mainWindow && m.isEnabled && m.shown == []
      ensures instance == m
    {
      if instance == null {
        instance := new NotificationManager(mainWindow);
      }
      m := instance;
    }
  }

  /** Two calls with different windows yield one manager, tied to the first window;
      disabling it through one reference silences the other. */
  method SingleInstance(w1: Window, w2: Window, message: string) returns (a: NotificationManager, b: NotificationManager)
    ensures a == b && a.mainWindow == w1
    ensures a.shown == []
  {
    var registry := new NotificationRegistry();
    a := registry.GetInstance(w1);
    b := registry.GetInstance(w2);
    a.Disable();
    b.ShowErrorNotification(message);
  }
}
