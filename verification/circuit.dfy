/** Vocabulary shared by both generators: pin directions, pins, and the
    distinctness of name lists. */
module Circuit {

  /** The pin types a module declares (`INPUT`, `OUTPUT`, `POWER`, `GROUND`). */
  datatype Direction = Input | Output | Power | Ground

  /** A module pin: its net name and direction. */
  datatype Pin<N> = Pin(name: N, dir: Direction)

  /** No name occurs twice. */
  predicate Distinct<T(==)>(s: seq<T>) {
    forall i, j :: 0 <= i < j < |s| ==> s[i] != s[j]
  }

  /** Pins declared, in order, with one direction (`add_pin_list`). */
  function PinList<N>(names: seq<N>, dir: Direction): (r: seq<Pin<N>>)
    ensures |r| == |names|
    ensures forall i :: 0 <= i < |r| ==> r[i] == Pin(names[i], dir)
  {
    seq(|names|, i requires 0 <= i < |names| => Pin(names[i], dir))
  }

  function PinNames<N>(pins: seq<Pin<N>>): (r: seq<N>)
    ensures |r| == |pins|
    ensures forall i :: 0 <= i < |r| ==> r[i] == pins[i].name
  {
    seq(|pins|, i requires 0 <= i < |pins| => pins[i].name)
  }

  /** Two duplicate-free lists with no common element concatenate to a
      duplicate-free list. */
  lemma DistinctConcat<T>(a: seq<T>, b: seq<T>)
    requires Distinct(a) && Distinct(b)
    requires forall x :: x in a ==> x !in b
    ensures Distinct(a + b)
  {
    forall i, j | 0 <= i < j < |a + b|
      ensures (a + b)[i] != (a + b)[j]
    {
      if j < |a| {
      } else if i >= |a| {
        assert (a + b)[i] == b[i - |a|];
      } else {
        assert (a + b)[i] == a[i] && a[i] in a;
        assert (a + b)[j] == b[j - |a|];
      }
    }
  }

  /** Naming the pins of a concatenation names each part in turn. */
  lemma PinNamesAppend<N>(x: seq<Pin<N>>, y: seq<Pin<N>>)
    ensures PinNames(x + y) == PinNames(x) + PinNames(y)
  {
    assert forall i :: 0 <= i < |x + y| ==> PinNames(x + y)[i] == (PinNames(x) + PinNames(y))[i];
  }

  /** Pins declared from a list of names carry exactly those names. */
  lemma PinListNames<N>(names: seq<N>, dir: Direction)
    ensures PinNames(PinList(names, dir)) == names
  {
  }
}
