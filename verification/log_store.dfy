/**
 * logStore.js: the newest-first game log. Entries are values, so a
 * snapshot taken by `getEntries` never changes afterwards; listener
 * invocation is not part of this model.
 */
module LogStore {
  import opened Wrappers
  import opened Listeners

  /** A stored log entry; `name` is `None` where the store keeps `undefined`. */
  datatype Entry = Entry(season: string, name: Option<string>, message: string, timestamp: int)

  /** The destructured `addEntry` argument; `None` marks an omitted property. */
  datatype EntryArgs = EntryArgs(season: Option<string>, message: Option<string>, name: Option<string>, timestamp: Option<int>)

  /** `addEntry()` called with no argument at all. */
  const NoArgs: EntryArgs := EntryArgs(None, None, None, None)

  /** The season recorded when none is given. */
  const UnknownSeason: string := "Unknown"

  datatype Store = Store(entries: seq<Entry>, listeners: seq<ListenerId>)

  /** `new LogStore()`. */
  const Empty: Store := Store([], [])

  /**
   * The entry `addEntry` builds: season defaults to "Unknown", an empty or
   * omitted name is not stored, the message falls back to the name and then
   * to the empty string, and the timestamp defaults to `now` (`Date.now()`).
   */
  function MakeEntry(args: EntryArgs, now: int): (e: Entry)
    ensures e.season == args.season.GetOr(UnknownSeason)
    ensures e.timestamp == args.timestamp.GetOr(now)
    ensures e.name.Some? <==> args.name.Some? && args.name.value != ""
    ensures e.name.Some? ==> e.name == args.name
    ensures args.message.Some? && args.message.value != "" ==> e.message == args.message.value
    ensures (args.message.None? || args.message.value == "") ==> e.message == (if e.name.Some? then e.name.value else "")
  {
    var season := args.season.GetOr(UnknownSeason);
    var message := args.message.GetOr("");
    var name := args.name.GetOr("");
    Entry(season, if name != "" then Some(name) else None,
          if message != "" then message else if name != "" then name else "",
          args.timestamp.GetOr(now))
  }

  /** The message is empty exactly when neither a message nor a name was given. */
  lemma MessageEmptyIff(args: EntryArgs, now: int)
    ensures MakeEntry(args, now).message == "" <==>
      args.message.GetOr("") == "" && args.name.GetOr("") == ""
  {
  }

  /** `addEntry(args)`: the new entry goes in front of the older ones, and is returned. */
  function AddEntry(st: Store, args: EntryArgs, now: int): (r: (Store, Entry))
    ensures r.1 == MakeEntry(args, now)
    ensures |r.0.entries| == |st.entries| + 1
    ensures r.0.entries[0] == r.1 && r.0.entries[1..] == st.entries
    ensures r.0.listeners == st.listeners
  {
    var e := MakeEntry(args, now);
    (st.(entries := [e] + st.entries), e)
  }

  /** `getEntries()`: a snapshot of the entries, newest first. */
  function GetEntries(st: Store): (s: seq<Entry>)
    ensures |s| == |st.entries| && forall i :: 0 <= i < |s| ==> s[i] == st.entries[i]
  {
    st.entries[..]
  }

  /** `clear()`: no entries; subscribers stay subscribed. */
  function Clear(st: Store): (r: Store)
    ensures GetEntries(r) == [] && r.listeners == st.listeners
  {
    st.(entries := [])
  }

  /** `subscribe(fn)`: the listener is appended and immediately handed the current snapshot. */
  function Subscribe(st: Store, fn: ListenerId): (r: (Store, seq<Entry>))
    ensures r.1 == GetEntries(st)
    ensures r.0.entries == st.entries
    ensures r.0.listeners == st.listeners + [fn]
    ensures fn in r.0.listeners && |r.0.listeners| == |st.listeners| + 1
  {
    (st.(listeners := Listeners.Subscribe(st.listeners, fn)), GetEntries(st))
  }

  /** The closure `subscribe` returns: the listener is filtered out and the entries are untouched. */
  function Unsubscribe(st: Store, fn: ListenerId): (r: Store)
    ensures fn !in r.listeners && r.entries == st.entries
    ensures forall x :: x != fn ==> (x in r.listeners <==> x in st.listeners)
  {
    var ls := Remove(st.listeners, fn);
    assert forall x :: x != fn ==> (x in ls <==> x in st.listeners) by {
      forall x | x != fn ensures x in ls <==> x in st.listeners {
        RemoveKeepsOthers(st.listeners, fn, x);
      }
    }
    st.(listeners := ls)
  }

  /** A snapshot is unaffected by later additions, and the new entry sits in front of it. */
  lemma SnapshotIsACopy(st: Store, args: EntryArgs, now: int)
    ensures var snap := GetEntries(st);
      var after := AddEntry(st, args, now).0;
      GetEntries(after) == [MakeEntry(args, now)] + snap
  {
    var snap := GetEntries(st);
    assert snap == st.entries;
  }

  /** Subscribing and then unsubscribing a new listener leaves the store as it was. */
  lemma SubscribeUnsubscribe(st: Store, fn: ListenerId)
    requires fn !in st.listeners
    ensures Unsubscribe(Subscribe(st, fn).0, fn) == st
  {
    SubscribeThenUnsubscribe(st.listeners, fn);
  }

  /** Adding several entries one after another, with the same clock reading. */
  function AddAll(st: Store, args: seq<EntryArgs>, now: int): (r: Store)
    ensures r.listeners == st.listeners
    ensures |r.entries| == |st.entries| + |args|
    decreases |args|
  {
    if |args| == 0 then st else AddAll(AddEntry(st, args[0], now).0, args[1..], now)
  }

  /** Newest first: after adding a run of entries, they appear in reverse order in front of the older ones. */
  lemma {:induction false} AddAllNewestFirst(st: Store, args: seq<EntryArgs>, now: int)
    ensures var r := AddAll(st, args, now).entries;
      (forall i :: 0 <= i < |args| ==> r[i] == MakeEntry(args[|args| - 1 - i], now))
      && r[|args|..] == st.entries
    decreases |args|
  {
    if |args| > 0 {
      var st1 := AddEntry(st, args[0], now).0;
      AddAllNewestFirst(st1, args[1..], now);
      var r := AddAll(st, args, now).entries;
      assert r == AddAll(st1, args[1..], now).entries;
      var n := |args|;
      forall i | 0 <= i < n ensures r[i] == MakeEntry(args[n - 1 - i], now) {
        if i < n - 1 {
          assert args[1..][(n - 1) - 1 - i] == args[n - 1 - i];
        } else {
          assert r[n - 1..] == st1.entries;
          assert r[n - 1] == st1.entries[0];
        }
      }
      assert r[n..] == r[n - 1..][1..];
    }
  }

  /** Two entries logged in a row: the later one is listed first, and the count goes up by two. */
  lemma TwoEntriesExample(a: EntryArgs, b: EntryArgs, now: int)
    requires a == EntryArgs(Some("Spring"), Some("first"), None, None)
    requires b == EntryArgs(None, None, Some("Flood"), Some(7))
    ensures var st := AddEntry(AddEntry(Empty, a, now).0, b, now).0;
      |GetEntries(st)| == 2
      && GetEntries(st)[0] == Entry(UnknownSeason, Some("Flood"), "Flood", 7)
      && GetEntries(st)[1] == Entry("Spring", None, "first", now)
  {
  }
}
