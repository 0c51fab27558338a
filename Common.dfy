/** Value wrappers shared by every module of the model.

    JavaScript distinguishes three things the model has to keep apart:
    a value that is `null` (Option), a key that is missing from an object
    (Field), and an operation that throws (Result). */
module Common {

  /** A nullable value: `None` stands for JavaScript's `null`. */
  datatype Option<+T> = None | Some(value: T) {
    function GetOr(default: T): T {
      match this
      case Some(v) => v
      case None => default
    }
  }

  /** The outcome of an operation that may throw: `Err` carries the
      message of the `Error` the source raises. */
  datatype Result<+T> = Ok(value: T) | Err(message: string)

  /** Whether a key is present in a caller-supplied object. Spreading such an
      object (`{...a, ...b}`) overrides exactly the keys that are `Given`. */
  datatype Field<+T> = Absent | Given(value: T) {
    /** `{...base, ...this}` restricted to one key. */
    function Over(base: T): T {
      match this
      case Given(v) => v
      case Absent => base
    }
  }
}
