/** The optional value used throughout the model in place of Python's `None`,
    and the sequence facts the proofs share. */
module Wrappers {

  datatype Option<+T> = None | Some(value: T) {

    /** The wrapped value, or `default` when there is none. */
    function GetOr(default: T): T
    {
      match this
      case Some(v) => v
      case None => default
    }
  }

  /** A slice grown by the element that follows it. */
  lemma SliceSnoc<T>(s: seq<T>, i: nat, j: nat)
    requires i <= j < |s|
    ensures s[i..j] + [s[j]] == s[i..j + 1]
  {
  }

  /** A sequence is the concatenation of its three slices around `i` and `j`. */
  lemma SliceThree<T>(s: seq<T>, i: nat, j: nat)
    requires i <= j <= |s|
    ensures s[..i] + s[i..j] + s[j..] == s
  {
  }

  /** Moving the front of `a` to the back of `b` keeps the elements of the two together. */
  lemma MoveFront<T>(a: seq<T>, b: seq<T>)
    requires a != []
    ensures multiset(a[1..] + (b + [a[0]])) == multiset(a + b)
    ensures multiset([a[0]] + a[1..]) == multiset(a)
  {
    assert a == [a[0]] + a[1..];
  }

  /** Concatenation is associative. */
  lemma AppendAssoc<T>(a: seq<T>, b: seq<T>, c: seq<T>)
    ensures a + b + c == a + (b + c)
  {
  }
}
