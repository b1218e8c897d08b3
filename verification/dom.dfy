/** The pieces of browser state the components share: the class list of the document's
    root element, the page's localStorage, and the events dispatched on the window. */
module Dom {
  import opened Options

  /** The localStorage keys the dark-mode and weather preferences are kept under. */
  const DarkModeKey: string := "darkMode"
  const WeatherKey: string := "homeWeather"

  /** No token appears twice, as in a `DOMTokenList`. */
  predicate NoDuplicates(ts: seq<string>)
  {
    forall i, j :: 0 <= i < j < |ts| ==> ts[i] != ts[j]
  }

  /** `classList.add(c)`: appended at the end when absent, otherwise nothing changes. */
  function WithToken(ts: seq<string>, c: string): (r: seq<string>)
    ensures c in r
    ensures forall x :: x in r <==> x in ts || x == c
    ensures NoDuplicates(ts) ==> NoDuplicates(r)
  {
    if c in ts then ts else ts + [c]
  }

  /** `classList.remove(c1, c2, ...)` for the tokens in `cs`: every other token stays, in
      its order. */
  function WithoutTokens(ts: seq<string>, cs: set<string>): (r: seq<string>)
    ensures forall x :: x in r <==> x in ts && x !in cs
    ensures |r| <= |ts|
    ensures NoDuplicates(ts) ==> NoDuplicates(r)
  {
    if ts == [] then []
    else if ts[0] in cs then WithoutTokens(ts[1..], cs)
    else
      var rest := WithoutTokens(ts[1..], cs);
      assert ts[0] !in rest ==> NoDuplicates(ts[1..]) ==> NoDuplicates([ts[0]] + rest);
      [ts[0]] + rest
  }

  /** Removing tokens that are not there leaves the list as it was. */
  lemma {:induction false} WithoutAbsentTokens(ts: seq<string>, cs: set<string>)
    requires forall x :: x in ts ==> x !in cs
    ensures WithoutTokens(ts, cs) == ts
  {
    if ts != [] {
      WithoutAbsentTokens(ts[1..], cs);
    }
  }

  /** Removing distributes over concatenation. */
  lemma {:induction false} WithoutTokensAppend(a: seq<string>, b: seq<string>, cs: set<string>)
    ensures WithoutTokens(a + b, cs) == WithoutTokens(a, cs) + WithoutTokens(b, cs)
  {
    if a != [] {
      var t := a + b;
      assert t[0] == a[0] && t[1..] == a[1..] + b;
      WithoutTokensAppend(a[1..], b, cs);
      if a[0] !in cs {
        assert WithoutTokens(t, cs) == [a[0]] + WithoutTokens(a[1..] + b, cs);
        assert WithoutTokens(a, cs) == [a[0]] + WithoutTokens(a[1..], cs);
      }
    } else {
      assert a + b == b;
    }
  }

  /** The class list of `document.documentElement`. */
  class ClassList {
    var tokens: seq<string>

    ghost predicate Valid()
      reads this
    {
      NoDuplicates(tokens)
    }

    constructor (initial: seq<string>)
      requires NoDuplicates(initial)
      ensures Valid() && tokens == initial
    {
      tokens := initial;
    }

    /** `classList.contains(c)` */
    function Has(c: string): bool
      reads this
    {
      c in tokens
    }

    /** `classList.add(c)` */
    method Add(c: string)
      requires Valid()
      modifies this
      ensures Valid() && tokens == WithToken(old(tokens), c)
    {
      if c !in tokens {
        tokens := tokens + [c];
      }
    }

    /** `classList.remove(...cs)` */
    method Remove(cs: set<string>)
      requires Valid()
      modifies this
      ensures Valid() && tokens == WithoutTokens(old(tokens), cs)
    {
      tokens := WithoutTokens(tokens, cs);
    }
  }

  /** `window.localStorage`: string values under string keys. */
  class Storage {
    var items: map<string, string>

    constructor (initial: map<string, string>)
      ensures items == initial
    {
      items := initial;
    }

    /** `localStorage.getItem(key)`: `null` (here `None`) for a missing key. */
    function GetItem(key: string): Option<string>
      reads this
    {
      if key in items then Some(items[key]) else None
    }

    /** `localStorage.setItem(key, value)` */
    method SetItem(key: string, value: string)
      modifies this
      ensures items == old(items)[key := value]
    {
      items := items[key := value];
    }
  }

  /** The window events the weather preference travels on: the same-tab custom event and
      the cross-tab storage event (whose key and new value may be `null`). */
  datatype WindowEvent =
    | WeatherChange(detail: string)
    | StorageChange(key: Option<string>, newValue: Option<string>)

  /** The events dispatched on `window`, oldest first. */
  class EventLog {
    var dispatched: seq<WindowEvent>

    constructor ()
      ensures dispatched == []
    {
      dispatched := [];
    }

    /** `window.dispatchEvent(e)` */
    method Dispatch(e: WindowEvent)
      modifies this
      ensures dispatched == old(dispatched) + [e]
    {
      dispatched := dispatched + [e];
    }
  }
}
