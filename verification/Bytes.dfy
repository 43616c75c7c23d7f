/** Bytes, lines and object ids: the raw material of gyt. */
module Bytes {

  type Byte = b: int | 0 <= b < 256

  /** One line of a file, without its newline. */
  type Line = seq<Byte>

  const NL: Byte := 10

  /** An object id stands for its content: the hash is taken to be injective. */
  type Id = nat

  datatype Option<+T> = None | Some(value: T)

  /** Elements read before the rest; None if the rest does not read. */
  function Prepend<T>(out: seq<T>, rest: Option<seq<T>>): Option<seq<T>> {
    if rest.None? then None else Some(out + rest.value)
  }

  lemma {:induction false} PrependNothing<T>(rest: Option<seq<T>>)
    ensures Prepend([], rest) == rest
  {
    if rest.Some? {
      assert [] + rest.value == rest.value;
    }
  }

  // The machine integers.

  const U32_BOUND: nat := 0x1_0000_0000
  const U64_BOUND: nat := 0x1_0000_0000_0000_0000
  const I64_BOUND: nat := 0x8000_0000_0000_0000

  type U32 = n: nat | n < 0x1_0000_0000
  type U64 = n: nat | n < 0x1_0000_0000_0000_0000
  type I64 = n: int | -0x8000_0000_0000_0000 <= n < 0x8000_0000_0000_0000

  predicate InU64(n: int) { 0 <= n < U64_BOUND }

  predicate InI64(n: int) { -(I64_BOUND as int) <= n < I64_BOUND }

  lemma {:induction false} Assoc<T>(a: seq<T>, b: seq<T>, c: seq<T>)
    ensures a + (b + c) == a + b + c
  {
  }

  /** The first element and the rest of a concatenation. */
  lemma {:induction false} Uncons<T>(s: seq<T>, t: seq<T>)
    requires s != []
    ensures (s + t)[0] == s[0] && (s + t)[1..] == s[1..] + t
  {
  }

  /** Concatenation of a sequence of sequences. */
  function Flatten<T>(ss: seq<seq<T>>): seq<T> {
    if ss == [] then [] else ss[0] + Flatten(ss[1..])
  }

  lemma {:induction false} FlattenAppend<T>(ss: seq<seq<T>>, ts: seq<seq<T>>)
    ensures Flatten(ss + ts) == Flatten(ss) + Flatten(ts)
  {
    if ss == [] {
      assert ss + ts == ts;
    } else {
      Uncons(ss, ts);
      FlattenAppend(ss[1..], ts);
      Assoc(ss[0], Flatten(ss[1..]), Flatten(ts));
    }
  }

  function Reversed<T>(s: seq<T>): seq<T> {
    if s == [] then [] else [s[|s| - 1]] + Reversed(s[..|s| - 1])
  }

  lemma {:induction false} ReversedSnoc<T>(s: seq<T>, t: T)
    ensures Reversed(s + [t]) == [t] + Reversed(s)
  {
    assert (s + [t])[..|s|] == s;
  }
}
