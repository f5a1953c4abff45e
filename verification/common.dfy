/** Small value types shared by every module of the model. */
module Common {

  /** An optional value: a dictionary lookup or header that may be absent. */
  datatype Option<+T> = None | Some(value: T) {
    /** The value, or `default` when absent (Python's `d.get(key, default)`). */
    function GetOr(default: T): T {
      match this
      case Some(v) => v
      case None => default
    }
  }

  /**
   * What a Python call did as seen by its caller: it returned a value, or it
   * raised an exception that the callee did not catch.
   */
  datatype Outcome<+T> = Returned(value: T) | Raised

  /** One octet of a `bytes` object. */
  newtype byte = b: int | 0 <= b < 256

  /** The bytes of an ASCII literal such as `b'#EXTM3U'`. */
  function Bytes(s: string): (r: seq<byte>)
    ensures |r| == |s|
    ensures forall i | 0 <= i < |s| && s[i] as int < 256 :: r[i] as int == s[i] as int
  {
    seq(|s|, i requires 0 <= i < |s| => (s[i] as int % 256) as byte)
  }
}
