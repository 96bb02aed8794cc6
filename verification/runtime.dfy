/**
 The run levels that bbox::rt resources go through.
 */
module Runtime {
  datatype RunLevel = Running | Stopping | Stopped

  function Without<T>(s: seq<T>, i: nat): seq<T>
    requires i < |s|
  {
    s[..i] + s[i + 1..]
  }
}
