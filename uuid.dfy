/**
 * UUID creation: a UUID is 31 slots of four random bits each, drawn one slot
 * at a time from a random number generator. The generator is modelled by the
 * sequence of outputs it would produce from its current state.
 */
module Uuids {
  import opened Integers

  /** The number of slots of a UUID, the length of its value buffer. */
  const UuidLength: nat := 31

  datatype Uuid = Uuid(value: seq<uint8>)

  /** A well-formed UUID: exactly 31 slots, each holding a value of four bits. */
  predicate IsNibbles(u: Uuid) {
    |u.value| == UuidLength && forall i :: 0 <= i < |u.value| ==> u.value[i] < 16
  }

  /** The slot a generator output becomes: its low four bits. */
  function Nibble(output: uint32): (r: uint8)
    ensures r < 16
    ensures (output as int - r as int) % 16 == 0
  {
    (output % 16) as int as uint8
  }

  /** The UUID drawn from the generator outputs `outputs`, slot i from the i-th output. */
  function UuidFrom(outputs: seq<uint32>): (r: Uuid)
    requires |outputs| >= UuidLength
    ensures IsNibbles(r)
    ensures forall i :: 0 <= i < UuidLength ==> r.value[i] == Nibble(outputs[i])
  {
    Uuid(seq(UuidLength, i requires 0 <= i < UuidLength => Nibble(outputs[i])))
  }

  /**
   * Fills the 31 slots in order, each from the next generator output, and
   * returns the outputs the generator has left: it has been advanced exactly
   * 31 times.
   */
  method Create(outputs: seq<uint32>) returns (uuid: Uuid, rest: seq<uint32>)
    requires |outputs| >= UuidLength
    ensures uuid == UuidFrom(outputs)
    ensures IsNibbles(uuid)
    ensures rest == outputs[UuidLength..]
  {
    var value := new uint8[UuidLength];
    var generator := outputs;
    var i := 0;
    while i < UuidLength
      invariant 0 <= i <= UuidLength
      invariant generator == outputs[i..]
      invariant forall k :: 0 <= k < i ==> value[k] == Nibble(outputs[k])
    {
      value[i] := Nibble(generator[0]);
      generator := generator[1..];
      i := i + 1;
    }
    uuid := Uuid(value[..]);
    rest := generator;
  }

  /**
   * A UUID depends only on the first 31 generator outputs, and only on their
   * low four bits: two output sequences give the same UUID exactly when their
   * first 31 outputs agree modulo 16.
   */
  lemma DependsOnlyOnDrawnOutputs(a: seq<uint32>, b: seq<uint32>)
    requires |a| >= UuidLength && |b| >= UuidLength
    ensures UuidFrom(a) == UuidFrom(b) <==> forall i :: 0 <= i < UuidLength ==> a[i] % 16 == b[i] % 16
    ensures a[..UuidLength] == b[..UuidLength] ==> UuidFrom(a) == UuidFrom(b)
  {
    var ua, ub := UuidFrom(a), UuidFrom(b);
    if forall i :: 0 <= i < UuidLength ==> a[i] % 16 == b[i] % 16 {
      assert forall i :: 0 <= i < UuidLength ==> ua.value[i] == ub.value[i];
      assert ua.value == ub.value;
    }
    if ua == ub {
      forall i | 0 <= i < UuidLength
        ensures a[i] % 16 == b[i] % 16
      {
        assert ua.value[i] == ub.value[i];
      }
    }
    if a[..UuidLength] == b[..UuidLength] {
      forall i | 0 <= i < UuidLength
        ensures a[i] == b[i]
      {
        assert a[i] == a[..UuidLength][i];
      }
    }
  }
}
