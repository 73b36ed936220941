/** Small failure-carrying datatypes shared by the whole model. */
module Common {

  /** A value that may be absent: a missing request field, an unset
      environment variable, a `null` read from a form. */
  datatype Option<+T> = None | Some(value: T)

  /** The outcome of a call into a collaborator that may fail. */
  datatype Result<+T, +E> = Ok(value: T) | Err(error: E)

  /** JavaScript truthiness of an optional string: present and non-empty. */
  predicate Truthy(o: Option<string>)
  {
    o.Some? && o.value != ""
  }

  /** No two elements of `s` agree on `g`. */
  ghost predicate DistinctBy<T, K>(s: seq<T>, g: T -> K)
  {
    forall i, j :: 0 <= i < j < |s| ==> g(s[i]) != g(s[j])
  }

  function Identity<T>(x: T): T
  {
    x
  }

  /** No element occurs twice. */
  ghost predicate NoDuplicates<T>(s: seq<T>)
  {
    DistinctBy(s, Identity)
  }

  /** `s.slice(-n)` for `n > 0`: the last `n` elements of `s`, or all of
      `s` when it is shorter. */
  function Window<T>(s: seq<T>, n: nat): (r: seq<T>)
    requires n > 0
    ensures |r| == if |s| <= n then |s| else n
    ensures r == s[|s| - |r|..]
  {
    if |s| > n then s[|s| - n..] else s
  }

  /** Taking a window of a window: the narrower one wins. */
  lemma WindowOfWindow<T>(s: seq<T>, n: nat, m: nat)
    requires 0 < m <= n
    ensures Window(Window(s, n), m) == Window(s, m)
  {
  }
}
