/** Shared value types: optional values and insertion-ordered dictionaries. */
module Common {

  datatype Option<+T> = None | Some(value: T) {
    predicate IsFailure() {
      None?
    }

    function PropagateFailure<U>(): Option<U>
      requires None?
    {
      None
    }

    function Extract(): T
      requires Some?
    {
      value
    }

    function GetOr(default: T): T {
      match this
      case None => default
      case Some(v) => v
    }
  }

  ghost predicate Distinct<T(!new)>(s: seq<T>) {
    forall i, j :: 0 <= i < j < |s| ==> s[i] != s[j]
  }

  lemma DistinctAppend<T(!new)>(s: seq<T>, x: T)
    requires Distinct(s) && x !in s
    ensures Distinct(s + [x])
  {
  }

  /** A Python dict: iteration follows insertion order, and storing under a key that is
      already present keeps the key's position. No dict in the model ever loses a key. */
  datatype Dict<V> = Dict(keys: seq<string>, vals: map<string, V>) {

    ghost predicate Valid() {
      && Distinct(keys)
      && (forall k :: k in keys <==> k in vals)
    }

    function Put(k: string, v: V): Dict<V> {
      Dict(if k in vals then keys else keys + [k], vals[k := v])
    }

    lemma PutValid(k: string, v: V)
      requires Valid()
      ensures Put(k, v).Valid()
    {
      if k !in vals {
        DistinctAppend(keys, k);
      }
    }
  }

  /** A member of a JSON message: it may be missing, null or a text. */
  datatype Given = Absent | Nothing | Text(text: string) {
    /** `d.get(key)`, where missing and null are the same. */
    function Value(): Option<string> {
      if Text? then Some(text) else None
    }

    /** `d.get(key, default)`. */
    function ValueOr(default: string): Option<string> {
      if Absent? then Some(default) else Value()
    }

    /** A state taken by `d.get(key, default)`; null is kept as the empty text, since no branch on
        a state tells the two apart. */
    function StateOr(default: string): string {
      ValueOr(default).GetOr("")
    }
  }

  /** Python's truth value of an optional string. */
  predicate Truthy(o: Option<string>) {
    o.Some? && o.value != ""
  }
}
