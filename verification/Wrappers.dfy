// Result and option types, and taking an entry out of a list, shared by every module.
module Wrappers {

  datatype Option<+T> = None | Some(value: T)

  datatype Result<+T, +E> = Success(value: T) | Failure(error: E)

  lemma Element<T>(s: set<T>) returns (x: T)
    requires s != {}
    ensures x in s
  {
    x :| x in s;
  }

  function RemoveAt<T>(s: seq<T>, pos: nat): seq<T>
    requires pos < |s|
  {
    s[..pos] + s[pos + 1..]
  }

  lemma RemoveBefore<T>(s: seq<T>, pos: nat, t: seq<T>)
    requires pos < |s|
    ensures RemoveAt(s + t, pos) == RemoveAt(s, pos) + t
  {
  }
}
