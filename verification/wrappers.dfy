/** Optional values, and results that either hold a value or name the
    exception the scripts would have raised at that point. */
module Wrappers {

  datatype Option<T> = None | Some(value: T)

  /** The Python exception kinds the modelled code can raise. None of them
      is caught by the scripts: each one ends the run. */
  datatype Fault =
    | IndexOutOfRange   // IndexError: a row or list shorter than the column read
    | NotANumber        // ValueError from int() on a non-numeric string
    | UnknownMonth      // KeyError from the month-name table
    | InvalidDate       // ValueError from date(year, month, day)
    | NotAString        // AttributeError: a date object parsed a second time
    | MissingKey        // KeyError from a dictionary lookup
    | NoPositiveEntry   // UnboundLocalError: FindLastDeath saw no positive value
    | EmptyInput        // IndexError: pop(0) from an empty list
    | Unbound           // NameError: a name read before anything was assigned to it
    | DivisionByZero    // ZeroDivisionError: a percentage of a zero daily count

  datatype Result<T> = Ok(value: T) | Err(fault: Fault)

  /** Concatenation regroups, for any element type. */
  lemma ConcatAssoc<T>(a: seq<T>, b: seq<T>, c: seq<T>)
    ensures a + (b + c) == (a + b) + c
  {
  }

  /** A prefix one longer is the shorter prefix and the next element; stated
      for any element type, so no element is ever looked into. */
  lemma PrefixGrows<T>(s: seq<T>, n: nat)
    requires n < |s|
    ensures s[..n + 1] == s[..n] + [s[n]]
  {
  }

  /** The first present value of s at or after `from`, if any. */
  function FirstSome<T>(s: seq<Option<T>>, from: nat): Option<T>
    requires from <= |s|
    decreases |s| - from
  {
    if from == |s| then None
    else if s[from].Some? then s[from]
    else FirstSome(s, from + 1)
  }

  /** There is no first value exactly when every entry is absent, and a
      first value is the entry of the first present index. */
  lemma {:induction false} FirstSomeMeaning<T>(s: seq<Option<T>>, from: nat)
    requires from <= |s|
    ensures FirstSome(s, from).None? <==> forall k :: from <= k < |s| ==> s[k].None?
    ensures FirstSome(s, from).Some? ==>
      exists i :: from <= i < |s| && s[i] == FirstSome(s, from) && forall k :: from <= k < i ==> s[k].None?
    decreases |s| - from
  {
    if from < |s| {
      FirstSomeMeaning(s, from + 1);
      if s[from].None? && FirstSome(s, from).Some? {
        var i :| from + 1 <= i < |s| && s[i] == FirstSome(s, from + 1) && forall k :: from + 1 <= k < i ==> s[k].None?;
        assert forall k :: from <= k < i ==> s[k].None?;
      }
    }
  }

  /** Absent entries before i do not change the first value. */
  lemma {:induction false} FirstSomeSkips<T>(s: seq<Option<T>>, from: nat, i: nat)
    requires from <= i <= |s|
    requires forall k :: from <= k < i ==> s[k].None?
    ensures FirstSome(s, from) == FirstSome(s, i)
    decreases i - from
  {
    if from < i {
      FirstSomeSkips(s, from + 1, i);
    }
  }
}
