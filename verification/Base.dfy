/** Vocabulary shared by every module. */
module Base {

  /** An optional value: TypeScript's `undefined`/`null` beside a value. */
  datatype Option<+T> = None | Some(value: T) {
    function UnwrapOr(default: T): T {
      match this
      case None => default
      case Some(v) => v
    }
  }

  /** One byte of a buffer. */
  type byte = b: int | 0 <= b < 256

  /** The last element of a non-empty sequence. */
  function Last<T>(s: seq<T>): T
    requires s != []
  {
    s[|s| - 1]
  }

  lemma Associative<T>(a: seq<T>, b: seq<T>, c: seq<T>)
    ensures (a + b) + c == a + (b + c)
  {
  }

  function Flatten<T>(chunks: seq<seq<T>>): seq<T> {
    if chunks == [] then [] else chunks[0] + Flatten(chunks[1..])
  }

  lemma {:induction false} FlattenAppend<T>(chunks: seq<seq<T>>, chunk: seq<T>)
    ensures Flatten(chunks + [chunk]) == Flatten(chunks) + chunk
  {
    if chunks == [] {
      assert chunks + [chunk] == [chunk];
    } else {
      FlattenAppend(chunks[1..], chunk);
      assert chunks + [chunk] == [chunks[0]] + (chunks[1..] + [chunk]);
      Associative(chunks[0], Flatten(chunks[1..]), chunk);
    }
  }
}
