/** The home page's weather: `sunny` until a saved non-empty choice is read on mount, then
    whatever the header announces in this tab (`weatherChange`) or another tab stores
    under the weather key (`storage`). */
module Home {
  import opened Options
  import opened Dom
  import Header

  /** The weather after the mount read of the saved value. */
  function Mounted(weather: string, saved: Option<string>): (r: string)
    ensures Truthy(saved) ==> r == saved.value
    ensures !Truthy(saved) ==> r == weather
  {
    if Truthy(saved) then saved.value else weather
  }

  /** The weather after one window event reaches the page's two listeners: a
      `weatherChange` sets its detail, whatever it is; a storage event sets its new value
      only when the key is the weather key and the value is not `null` or empty. */
  function Received(weather: string, e: WindowEvent): (r: string)
    ensures e.WeatherChange? ==> r == e.detail
    ensures e.StorageChange? ==>
      (r == (if e.key == Some(WeatherKey) && Truthy(e.newValue) then e.newValue.value else weather))
  {
    match e
    case WeatherChange(detail) => detail
    case StorageChange(key, newValue) =>
      if key == Some(WeatherKey) && Truthy(newValue) then newValue.value else weather
  }

  /** The weather after a sequence of events, oldest first. */
  function ReceivedAll(weather: string, es: seq<WindowEvent>): string
    decreases |es|
  {
    if es == [] then weather else Received(ReceivedAll(weather, es[..|es| - 1]), es[|es| - 1])
  }

  /** An event that leaves the weather alone whatever it is: a storage event for another
      key, or one whose new value is `null` or empty. */
  predicate Ignored(e: WindowEvent)
  {
    e.StorageChange? && (e.key != Some(WeatherKey) || !Truthy(e.newValue))
  }

  /** Events that are all ignored leave the weather as it was. */
  lemma {:induction false} IgnoredEventsKeepWeather(weather: string, es: seq<WindowEvent>)
    requires forall k :: 0 <= k < |es| ==> Ignored(es[k])
    ensures ReceivedAll(weather, es) == weather
    decreases |es|
  {
    if es != [] {
      IgnoredEventsKeepWeather(weather, es[..|es| - 1]);
    }
  }

  /** The weather is the one carried by the last event that is not ignored, or the
      starting weather when there is none. */
  lemma {:induction false} LastRelevantEventWins(weather: string, es: seq<WindowEvent>, i: nat)
    requires i < |es| && !Ignored(es[i])
    requires forall k :: i < k < |es| ==> Ignored(es[k])
    ensures ReceivedAll(weather, es) == Received(weather, es[i])
    ensures ReceivedAll(weather, es) != "" || es[i].WeatherChange?
    decreases |es|
  {
    if i < |es| - 1 {
      LastRelevantEventWins(weather, es[..|es| - 1], i);
    } else {
      assert es[..|es| - 1][..i] == es[..i];
    }
  }

  /** A choice stored in another tab reaches a live page through the storage event, and a
      page that mounts afterwards through the saved value: both see the same weather. */
  lemma StorageAndReloadAgree(weather: string, items: map<string, string>, w: string)
    requires w != ""
    ensures Received(weather, StorageChange(Some(WeatherKey), Some(w))) == w
    ensures var stored := items[WeatherKey := w];
      Mounted(weather, if WeatherKey in stored then Some(stored[WeatherKey]) else None) == w
  {
  }

  /** The page's weather state and its listeners. */
  class Home {
    var weather: string

    constructor ()
      ensures weather == "sunny"
    {
      weather := "sunny";
    }

    /** The mount effect's read of the saved weather. */
    method Mount(storage: Storage)
      modifies this
      ensures weather == Mounted(old(weather), storage.GetItem(WeatherKey))
    {
      var savedWeather := storage.GetItem(WeatherKey);
      if Truthy(savedWeather) {
        weather := savedWeather.value;
      }
    }

    /** The `weatherChange` listener. */
    method HandleWeatherChange(detail: string)
      modifies this
      ensures weather == Received(old(weather), WeatherChange(detail))
    {
      weather := detail;
    }

    /** The `storage` listener. */
    method HandleStorageChange(key: Option<string>, newValue: Option<string>)
      modifies this
      ensures weather == Received(old(weather), StorageChange(key, newValue))
    {
      if key == Some(WeatherKey) && Truthy(newValue) {
        weather := newValue.value;
      }
    }

    /** Delivers one window event to the listener registered for its kind. */
    method Listen(e: WindowEvent)
      modifies this
      ensures weather == Received(old(weather), e)
    {
      match e
      case WeatherChange(detail) => HandleWeatherChange(detail);
      case StorageChange(key, newValue) => HandleStorageChange(key, newValue);
    }
  }

  /** A weather pick in the header of the same tab: the header updates its state, stores the
      choice and dispatches the event, which the page's listener receives; afterwards the
      header, the page and the stored value all hold the pick. */
  method PickWeather(header: Header.Header, home: Home, w: string)
    modifies header, header.storage, header.events, home
    ensures header.weather == w && home.weather == w
    ensures header.storage.GetItem(WeatherKey) == Some(w)
    ensures header.events.dispatched == old(header.events.dispatched) + [WeatherChange(w)]
  {
    header.HandleWeatherChange(w);
    var e := header.events.dispatched[|header.events.dispatched| - 1];
    home.Listen(e);
  }
}
