/** Machine integers and the effects shared by every module of the model. */
module Base {

  /** Rust's `u8`, `u16` and `u32`. */
  type byte = x: int | 0 <= x < 0x100
  type u16 = x: int | 0 <= x < 0x1_0000
  type u32 = x: int | 0 <= x < 0x1_0000_0000

  /** `x as u8` on a non-negative integer: keeps the low 8 bits. */
  function AsU8(x: nat): byte { x % 0x100 }

  /** `x as u16` and a wrapping `u16` addition: keeps the low 16 bits. */
  function AsU16(x: nat): u16 { x % 0x1_0000 }

  /** `x + 1` on a `u32` counter, wrapping. */
  function IncU32(x: u32): u32 { (x + 1) % 0x1_0000_0000 }

  /** A computation that either returns a value or panics (an index out of
      range, an explicit `panic!`, an `unwrap` of an error). */
  datatype Outcome<+T> = Ok(value: T) | Panic

  /** The items `ev` followed by whatever `rest` yields, or a panic. */
  function Then<T>(ev: seq<T>, rest: Outcome<seq<T>>): Outcome<seq<T>>
  {
    if rest.Panic? then Panic else Ok(ev + rest.value)
  }

  lemma ThenNil<T>(rest: Outcome<seq<T>>)
    ensures Then([], rest) == rest
  {
    if rest.Ok? {
      assert [] + rest.value == rest.value;
    }
  }

  lemma ThenAssoc<T>(a: seq<T>, b: seq<T>, rest: Outcome<seq<T>>)
    ensures Then(a, Then(b, rest)) == Then(a + b, rest)
  {
    if rest.Ok? {
      assert a + (b + rest.value) == (a + b) + rest.value;
    }
  }

  /** The sequences of `ss` joined end to end. */
  function Concat<T>(ss: seq<seq<T>>): seq<T>
    decreases |ss|
  {
    if ss == [] then [] else Concat(ss[..|ss| - 1]) + ss[|ss| - 1]
  }

  /** A log that has grown by `s` after `ss`. */
  lemma ConcatSnoc<T>(pre: seq<T>, ss: seq<seq<T>>, s: seq<T>)
    ensures pre + Concat(ss + [s]) == (pre + Concat(ss)) + s
  {
    assert (ss + [s])[..|ss|] == ss;
  }

  /** Rust's `Result`. */
  datatype Result<+T, +E> = Success(value: T) | Failure(error: E)

  /** Rust's `Option`. */
  datatype Option<+T> = None | Some(value: T)

  /** `b` is `a` with `w` written over it at `lo`. */
  lemma Spliced<T>(a: seq<T>, b: seq<T>, lo: nat, w: seq<T>)
    requires |a| == |b| && lo + |w| <= |a|
    requires forall i :: 0 <= i < |a| ==> b[i] == if lo <= i < lo + |w| then w[i - lo] else a[i]
    ensures b == a[..lo] + w + a[lo + |w|..]
  {
    var c := a[..lo] + w + a[lo + |w|..];
    assert |c| == |b|;
    forall i | 0 <= i < |b|
      ensures b[i] == c[i]
    {
    }
  }
}
