/** Values that flow through the analytics manager: property bags, the key-rename
    table and the tracking parameters that accompany an event. */
module Values {

  /** `None` stands for JavaScript's `null` / `undefined`. */
  datatype Option<+T> = None | Some(value: T)

  /** A property value. Values supplied by the application are opaque to the
      manager; the manager itself only creates strings (`PrevEvent…`), numbers
      (`SessionTime`) and booleans (`isPayer`). */
  datatype Value = Str(s: string) | Num(n: int) | Bool(b: bool) | Opaque(id: nat)

  /** A property bag: a plain object used as a dictionary from key to value. */
  type Bag = map<string, Value>

  /** `propertyNamesMap`: canonical key to the key that is sent instead. */
  type NameMap = map<string, string>

  /** The optional third argument of `trackEvent`. Only the two fields the
      manager reads are modelled; the bag is otherwise forwarded as it is. */
  datatype TrackingParams = TrackingParams(eventIsMajor: bool, eventDescription: Option<string>)

  /** JavaScript truthiness of a string that may be `null`/`undefined`. */
  predicate Truthy(s: Option<string>)
  {
    s.Some? && s.value != ""
  }
}
