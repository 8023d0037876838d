/** Vocabulary shared by the media pipeline: bytes, samples, errors, and the few
    sequence facts every parser and every trace needs. */
module Media {
  type byte = x: int | 0 <= x < 256

  type u16 = x: int | 0 <= x < 0x1_0000
  type u32 = x: int | 0 <= x < 0x1_0000_0000

  const TWO16: int := 0x1_0000
  const TWO24: int := 0x100_0000
  const TWO32: int := 0x1_0000_0000
  const TWO64: int := 0x1_0000_0000_0000_0000

  const SECOND: int := 1_000_000_000 // nanoseconds

  datatype Option<+T> = None | Some(value: T)

  /** `File` is every failed read (end of input included); `Internal` carries a message in
      the program, which the model drops. */
  datatype Error = File | Internal | Closed

  datatype Result<+T> = Ok(value: T) | Err(error: Error)

  /** One encoded frame with its play time in nanoseconds. */
  datatype Sample = Sample(data: seq<byte>, duration: nat)

  /** read_exact on a byte stream: the next `n` bytes, or failure with the input used up. */
  method ReadExact(reader: seq<byte>, n: nat) returns (buf: Option<seq<byte>>, rest: seq<byte>)
    ensures if n <= |reader| then buf == Some(reader[..n]) && rest == reader[n..] else buf == None && rest == []
  {
    if n <= |reader| {
      buf, rest := Some(reader[..n]), reader[n..];
    } else {
      buf, rest := None, [];
    }
  }

  function Flatten<T>(ss: seq<seq<T>>): seq<T> {
    if ss == [] then [] else ss[0] + Flatten(ss[1..])
  }

  function Sum(ns: seq<nat>): nat {
    if ns == [] then 0 else ns[0] + Sum(ns[1..])
  }

  /** The last `n` elements, or all of them when there are fewer. */
  function Last<T>(s: seq<T>, n: nat): (r: seq<T>)
    ensures |r| == if |s| <= n then |s| else n
  {
    if |s| <= n then s else s[|s| - n..]
  }

  ghost predicate NonEmpty<T>(ss: seq<seq<T>>) {
    forall i :: 0 <= i < |ss| ==> ss[i] != []
  }

  /** The elements that are not empty, in order: all of them exactly when none is empty. */
  function NonEmptyOf<T(==)>(ss: seq<seq<T>>): (r: seq<seq<T>>)
    ensures |r| <= |ss| && NonEmpty(r) && (NonEmpty(ss) <==> r == ss)
  {
    if ss == [] then []
    else
      var rest := NonEmptyOf(ss[1..]);
      assert ss == [ss[0]] + ss[1..];
      assert ss[0] != [] && NonEmpty(ss[1..]) ==> NonEmpty(ss);
      if ss[0] == [] then rest else [ss[0]] + rest
  }

  lemma Assoc<T>(a: seq<T>, b: seq<T>, c: seq<T>)
    ensures a + b + c == a + (b + c)
  {
  }

  lemma EmptyEnds<T>(a: seq<T>)
    ensures a + [] == a && [] + a == a
  {
  }

  lemma SplitLast<T>(s: seq<T>)
    requires s != []
    ensures s == s[..|s| - 1] + [s[|s| - 1]]
  {
  }

  lemma PrefixOfSum<T>(a: seq<T>, b: seq<T>, k: nat)
    requires k <= |b|
    ensures (a + b)[..|a| + k] == a + b[..k]
  {
  }

  lemma {:induction false} FlattenConcat<T>(a: seq<seq<T>>, b: seq<seq<T>>)
    ensures Flatten(a + b) == Flatten(a) + Flatten(b)
  {
    if a == [] {
      assert a + b == b;
    } else {
      FlattenConcat(a[1..], b);
      assert (a + b)[0] == a[0] && (a + b)[1..] == a[1..] + b;
      assert a[0] + (Flatten(a[1..]) + Flatten(b)) == a[0] + Flatten(a[1..]) + Flatten(b);
    }
  }

  lemma {:induction false} SumConcat(a: seq<nat>, b: seq<nat>)
    ensures Sum(a + b) == Sum(a) + Sum(b)
  {
    if a == [] {
      assert a + b == b;
    } else {
      SumConcat(a[1..], b);
      assert (a + b)[1..] == a[1..] + b;
    }
  }
}
