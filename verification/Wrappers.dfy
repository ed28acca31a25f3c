/** Failure and absence, shared by every component of the model. */
module Wrappers {

  datatype Option<+T> = None | Some(value: T)

  datatype Result<+T, +E> = Ok(value: T) | Err(error: E)

  newtype byte = b: int | 0 <= b < 256

  type Bytes = seq<byte>

  function Min(a: int, b: int): int {
    if a <= b then a else b
  }

  /** Texts with a separator between each two. */
  function Join(texts: seq<string>, separator: string): string {
    if texts == [] then "" else if |texts| == 1 then texts[0] else texts[0] + separator + Join(texts[1..], separator)
  }

  /** Joining is putting the separator between any two parts, and nowhere else. */
  lemma {:induction false} JoinAppend(a: seq<string>, b: seq<string>, separator: string)
    ensures Join([], separator) == "" && (|a| == 1 ==> Join(a, separator) == a[0])
    ensures a != [] && b != [] ==> Join(a + b, separator) == Join(a, separator) + separator + Join(b, separator)
  {
    if |a| <= 1 || b == [] {
      assert |a| == 1 ==> (a + b)[1..] == b;
    } else {
      assert (a + b)[1..] == a[1..] + b;
      JoinAppend(a[1..], b, separator);
      var rest, tail := Join(a[1..], separator), Join(b, separator);
      assert a[0] + separator + (rest + separator + tail) == a[0] + separator + rest + separator + tail;
    }
  }

  /** The chunks of a stream laid end to end. */
  function Concat<T>(parts: seq<seq<T>>): seq<T> {
    if parts == [] then [] else parts[0] + Concat(parts[1..])
  }

  lemma {:induction false} ConcatAppend<T>(parts: seq<seq<T>>, more: seq<seq<T>>)
    ensures Concat(parts + more) == Concat(parts) + Concat(more)
  {
    if parts == [] {
      assert parts + more == more;
    } else {
      assert (parts + more)[1..] == parts[1..] + more;
      ConcatAppend(parts[1..], more);
    }
  }

  lemma Assoc<T>(a: seq<T>, b: seq<T>, c: seq<T>)
    ensures (a + b) + c == a + (b + c)
  {
  }

  lemma PrefixThenMore<T>(a: seq<T>, b: seq<T>, c: seq<T>)
    ensures a <= b ==> a <= b + c
  {
  }

  lemma ConcatOne<T>(part: seq<T>)
    ensures Concat([part]) == part
  {
    assert [part][1..] == [] && part + [] == part;
  }

  lemma ConcatTwo<T>(a: seq<T>, b: seq<T>)
    ensures Concat([a, b]) == a + b
  {
    assert [a, b][1..] == [b];
    ConcatOne(b);
  }
}
