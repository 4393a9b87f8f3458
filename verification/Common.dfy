/** Wrappers and small facts shared by the other modules. */
module Common {

  datatype Option<+T> = None | Some(value: T)

  datatype Result<+T, +E> = Ok(value: T) | Err(error: E)

  function Min(a: int, b: int): int {
    if a <= b then a else b
  }

  function Max(a: int, b: int): int {
    if a >= b then a else b
  }

  /** A store whose objects are put once: the first writer of a key wins. */
  function Put<K, V>(objects: map<K, V>, key: K, bytes: V): map<K, V> {
    if key in objects then objects else objects[key := bytes]
  }

  /** Whether an upload may report success: the key is new, or holds the same bytes. */
  predicate PutSucceeds<K, V(==)>(objects: map<K, V>, key: K, bytes: V) {
    key in objects ==> objects[key] == bytes
  }

  /** The code units trim() removes. */
  predicate IsSpaceUnit(u: nat) {
    || 0x09 <= u <= 0x0D || u == 0x20 || u == 0xA0 || u == 0x1680 || 0x2000 <= u <= 0x200A
    || u == 0x2028 || u == 0x2029 || u == 0x202F || u == 0x205F || u == 0x3000 || u == 0xFEFF
  }

  function TrimBy<T>(s: seq<T>, space: T -> bool): seq<T>
    decreases |s|
  {
    if s == [] then []
    else if space(s[0]) then TrimBy(s[1..], space)
    else if space(s[|s| - 1]) then TrimBy(s[..|s| - 1], space)
    else s
  }
}
