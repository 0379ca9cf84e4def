/**
 The types that the `org.freedesktop.Notifications` interface (version 1.2 of the
 freedesktop.org Desktop Notifications Specification) puts on the wire, shared by
 the two daemons of the repository.
 */
module FreedesktopNotifications {

  /** D-Bus `u`: the type of `replaces_id` and of the id `Notify` returns. */
  type uint32 = x: int | 0 <= x < 0x1_0000_0000

  /** D-Bus `i`: the type of `expire_timeout`. */
  type int32 = x: int | -0x8000_0000 <= x < 0x8000_0000

  datatype Result<T, E> = Ok(value: T) | Err(error: E)

  /** Reason codes of the `NotificationClosed` signal. */
  const Expired: nat := 1
  const Dismissed: nat := 2

  /**
   The value of one entry of the `hints` dictionary (`a{sv}`), as the Python
   binding hands it to the daemon after unpacking the variant.
   */
  datatype HintValue =
    | Int(i: int)        // every D-Bus integer type, the byte `urgency` included
    | Bool(b: bool)
    | Double(d: real)    // a finite double, taken as its exact value
    | Str(s: string)     // strings and object paths
    | Container          // an array or dictionary: a Python list or dict
}
