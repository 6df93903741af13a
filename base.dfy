/** Shared vocabulary: bytes, results and byte-sequence helpers. */
module Base {

  /** One octet of a log stream or a file. */
  newtype byte = x: int | 0 <= x < 256

  /** The record terminator `b'\n'`. */
  const Newline: byte := 10

  datatype Option<+T> = None | Some(value: T)

  datatype Result<+T, +E> = Ok(value: T) | Err(error: E)

  /** The bytes of an ASCII string, one byte per character. */
  function Ascii(s: string): (r: seq<byte>)
    ensures |r| == |s|
    ensures forall i :: 0 <= i < |s| && s[i] as int < 256 ==> r[i] as int == s[i] as int
  {
    seq(|s|, i requires 0 <= i < |s| => (s[i] as int % 256) as byte)
  }

  /** Concatenation of a sequence of byte strings, in order. */
  function Flatten(chunks: seq<seq<byte>>): seq<byte>
  {
    if chunks == [] then [] else Flatten(chunks[..|chunks| - 1]) + chunks[|chunks| - 1]
  }

  lemma FlattenAppend(chunks: seq<seq<byte>>, c: seq<byte>)
    ensures Flatten(chunks + [c]) == Flatten(chunks) + c
  {
    assert (chunks + [c])[..|chunks|] == chunks;
  }

  /** Flattening distributes over concatenation. */
  lemma {:induction false} FlattenConcat(a: seq<seq<byte>>, b: seq<seq<byte>>)
    ensures Flatten(a + b) == Flatten(a) + Flatten(b)
    decreases |b|
  {
    if b != [] {
      var init := b[..|b| - 1];
      var last := b[|b| - 1];
      assert b == init + [last];
      assert a + b == (a + init) + [last];
      FlattenConcat(a, init);
      FlattenAppend(a + init, last);
      FlattenAppend(init, last);
    } else {
      assert a + b == a;
    }
  }

  /** The chunks `j..k` occupy, in the flattening, the bytes after those of the chunks before `j`. */
  lemma FlattenWindow(chunks: seq<seq<byte>>, j: nat, k: nat)
    requires j <= k <= |chunks|
    ensures var off := |Flatten(chunks[..j])|;
      off + |Flatten(chunks[j..k])| <= |Flatten(chunks)| &&
      Flatten(chunks)[off..off + |Flatten(chunks[j..k])|] == Flatten(chunks[j..k])
  {
    assert chunks == chunks[..j] + chunks[j..k] + chunks[k..];
    FlattenConcat(chunks[..j] + chunks[j..k], chunks[k..]);
    FlattenConcat(chunks[..j], chunks[j..k]);
  }

  /** Flattening distributes over prepending one chunk. */
  lemma {:induction false} FlattenCons(c: seq<byte>, chunks: seq<seq<byte>>)
    ensures Flatten([c] + chunks) == c + Flatten(chunks)
  {
    if chunks != [] {
      var init := chunks[..|chunks| - 1];
      var last := chunks[|chunks| - 1];
      assert chunks == init + [last];
      assert [c] + chunks == ([c] + init) + [last];
      FlattenCons(c, init);
      FlattenAppend([c] + init, last);
      FlattenAppend(init, last);
    } else {
      assert [c] + chunks == [] + [c];
      FlattenAppend([], c);
    }
  }
}
