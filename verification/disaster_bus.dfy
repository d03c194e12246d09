/**
 * disasterBus.js: turning whatever `showDisaster` is given into the
 * payload it emits, and the module's listener list. Delivering the payload
 * to the listeners is not part of this model.
 */
module DisasterBus {
  import opened Wrappers
  import Listeners

  const ForestFireText: string := "A forest fire has begun spreading across the canopy and underbrush."
  const WildfireText: string := "Raging wildfire moving quickly through dry brush and grasslands."
  const FloodText: string := "Heavy rains have swollen rivers and caused widespread flooding."
  const EarthquakeText: string := "A sudden earthquake shook the ground and damaged structures."
  const HurricaneText: string := "A powerful hurricane is making landfall with intense winds and storm surge."

  /** `DISASTER_TEXTS`: the text for each known disaster key. */
  function Texts(key: string): Option<string> {
    if key == "forest_fire" then Some(ForestFireText)
    else if key == "wildfire" then Some(WildfireText)
    else if key == "flood" then Some(FloodText)
    else if key == "earthquake" then Some(EarthquakeText)
    else if key == "hurricane" then Some(HurricaneText)
    else None
  }

  /** The emitted object: `name`, `message` and whatever other string properties were passed along. */
  datatype Payload = Payload(name: Option<string>, message: Option<string>, extra: map<string, string>)

  /** What `showDisaster` may be called with; `OtherInput` carries `String(d)` of a non-string, non-object value. */
  datatype BusInput = KeyInput(key: string) | ObjectInput(payload: Payload) | OtherInput(text: string)

  /** JavaScript truthiness of an optional string property. */
  predicate Truthy(s: Option<string>) {
    s.Some? && s.value != ""
  }

  /** The dictionary text an object's `name` earns it when its message is missing or empty. */
  predicate NeedsText(p: Payload) {
    !Truthy(p.message) && Truthy(p.name) && Texts(p.name.value).Some?
  }

  /**
   * The payload `showDisaster` emits: a string key becomes `{name, message}`
   * with the dictionary text or the key itself; an object is copied and
   * only gains the dictionary text when it has no message of its own; any
   * other value becomes `{name: 'unknown', message: String(d)}`.
   */
  function Normalize(d: BusInput): (p: Payload)
    ensures d.KeyInput? ==> p.name == Some(d.key) && p.extra == map[]
    ensures d.KeyInput? && Texts(d.key).Some? ==> p.message == Texts(d.key)
    ensures d.KeyInput? && Texts(d.key).None? ==> p.message == Some(d.key)
    ensures d.ObjectInput? ==> p.name == d.payload.name && p.extra == d.payload.extra
    ensures d.ObjectInput? && !NeedsText(d.payload) ==> p == d.payload
    ensures d.ObjectInput? && NeedsText(d.payload) ==> p.message == Texts(d.payload.name.value)
    ensures d.OtherInput? ==> p == Payload(Some("unknown"), Some(d.text), map[])
  {
    match d
    case KeyInput(key) => Payload(Some(key), Some(Texts(key).GetOr(key)), map[])
    case ObjectInput(q) => if NeedsText(q) then q.(message := Texts(q.name.value)) else q
    case OtherInput(text) => Payload(Some("unknown"), Some(text), map[])
  }

  /** Every key the dictionary knows is non-empty, and so is every text. */
  lemma TextsNonEmpty(key: string)
    ensures Texts(key).Some? ==> key != "" && Texts(key).value != ""
  {
    assert |ForestFireText| > 0 && |WildfireText| > 0 && |FloodText| > 0;
    assert |EarthquakeText| > 0 && |HurricaneText| > 0;
  }

  /** Normalizing an already-normalized payload changes nothing. */
  lemma NormalizeIdempotent(d: BusInput)
    ensures Normalize(ObjectInput(Normalize(d))) == Normalize(d)
  {
    var p := Normalize(d);
    match d
    case KeyInput(key) =>
      if Texts(key).Some? {
        TextsNonEmpty(key);
        assert Truthy(p.message);
      } else {
        assert !NeedsText(p);
      }
    case ObjectInput(q) =>
      if NeedsText(q) {
        TextsNonEmpty(q.name.value);
        assert Truthy(p.message);
      }
    case OtherInput(text) =>
      assert !NeedsText(p);
  }

  /** A known key and an object carrying only that name produce the same message. */
  lemma KeyAndNameAgree(key: string)
    requires Texts(key).Some?
    ensures Normalize(KeyInput(key)) == Normalize(ObjectInput(Payload(Some(key), None, map[])))
  {
    TextsNonEmpty(key);
  }

  /** The message survives normalization untouched whenever the object brought a non-empty one. */
  lemma OwnMessageKept(p: Payload)
    requires Truthy(p.message)
    ensures Normalize(ObjectInput(p)).message == p.message
  {
  }

  /** The keys the popup tests use, a key the dictionary lacks, and `null`. */
  lemma NormalizeExamples(fire: string, quake: string)
    requires fire == "forest_fire" && quake == "tsunami"
    ensures Normalize(KeyInput(fire)).message == Some(ForestFireText)
    ensures Normalize(KeyInput(quake)) == Payload(Some("tsunami"), Some("tsunami"), map[])
    ensures Normalize(OtherInput("null")) == Payload(Some("unknown"), Some("null"), map[])
  {
  }

  /** `subscribe(fn)` on the bus: the listener list the module keeps afterwards. */
  function Subscribe(listeners: seq<Listeners.ListenerId>, fn: Listeners.ListenerId): (r: seq<Listeners.ListenerId>)
    ensures |r| == |listeners| + 1 && r[..|listeners|] == listeners && r[|listeners|] == fn
    ensures fn in r
  {
    Listeners.Subscribe(listeners, fn)
  }

  /** The closure `subscribe` returns: exactly the given listener leaves, the rest keep their order. */
  function Unsubscribe(listeners: seq<Listeners.ListenerId>, fn: Listeners.ListenerId): (r: seq<Listeners.ListenerId>)
    ensures fn !in r
    ensures forall x :: x != fn ==> multiset(r)[x] == multiset(listeners)[x]
  {
    Listeners.Remove(listeners, fn)
  }
}
