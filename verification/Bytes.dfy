/** Octets, machine integers, and the two growable buffers the printers append to. */
module Bytes {
  type byte = x: int | 0 <= x < 256

  type bytes = seq<byte>

  type i32 = x: int | -0x8000_0000 <= x < 0x8000_0000
  type u32 = x: int | 0 <= x < 0x1_0000_0000
  type u64 = x: int | 0 <= x < 0x1_0000_0000_0000_0000

  /** Rust's `String` as a buffer that `push` and `push_str` extend in place. */
  class TextBuffer {
    var text: string

    constructor ()
      ensures text == ""
    {
      text := "";
    }

    method PushStr(s: string)
      modifies this
      ensures text == old(text) + s
    {
      text := text + s;
    }

    method Push(c: char)
      modifies this
      ensures text == old(text) + [c]
    {
      text := text + [c];
    }
  }

  /** Rust's `Vec<u8>` as a buffer that `push` and `extend_from_slice` extend in place. */
  class ByteBuffer {
    var data: bytes

    constructor ()
      ensures data == []
    {
      data := [];
    }

    method Extend(more: bytes)
      modifies this
      ensures data == old(data) + more
    {
      data := data + more;
    }
  }

  function Flatten<T>(parts: seq<seq<T>>): (r: seq<T>) {
    if parts == [] then [] else parts[0] + Flatten(parts[1..])
  }

  lemma {:induction false} FlattenAppend<T>(parts: seq<seq<T>>, last: seq<T>)
    ensures Flatten(parts + [last]) == Flatten(parts) + last
  {
    if parts == [] {
      assert parts + [last] == [last];
    } else {
      assert (parts + [last])[1..] == parts[1..] + [last];
      FlattenAppend(parts[1..], last);
    }
  }

  lemma {:induction false} FlattenConcat<T>(a: seq<seq<T>>, b: seq<seq<T>>)
    ensures Flatten(a + b) == Flatten(a) + Flatten(b)
  {
    if a == [] {
      assert a + b == b;
    } else {
      assert (a + b)[1..] == a[1..] + b;
      FlattenConcat(a[1..], b);
    }
  }
}
