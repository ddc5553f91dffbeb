/**
 * A readable, seekable stream over a file's bytes, as the analyzers use
 * `FileStream`: it keeps a read position that `Read` advances and `Seek`
 * moves. One `Read` call is taken to deliver every requested byte that
 * remains, as a read from a local file does.
 */
module Streams {
  import opened Text

  class ByteStream {
    /** The bytes of the file. */
    const contents: seq<Byte>
    /** Where the next read starts. */
    var position: nat

    ghost predicate Valid()
      reads this
    {
      position <= |contents|
    }

    constructor (bytes: seq<Byte>)
      ensures Valid() && contents == bytes && position == 0
    {
      contents := bytes;
      position := 0;
    }

    /** `Stream.Length`. */
    function Length(): nat
    {
      |contents|
    }

    /** The next `count` bytes, or all that remain when fewer do; the position moves past them. */
    method Read(count: nat) returns (chunk: seq<Byte>)
      requires Valid()
      modifies this
      ensures Valid()
      ensures chunk == old(contents[position..position + MinNat(count, |contents| - position)])
      ensures position == old(position) + |chunk|
    {
      var n := MinNat(count, |contents| - position);
      chunk := contents[position..position + n];
      position := position + n;
    }

    /** Every byte from the position to the end; the position is then at the end. */
    method ReadToEnd() returns (rest: seq<Byte>)
      requires Valid()
      modifies this
      ensures Valid() && position == |contents|
      ensures rest == old(contents[position..])
    {
      rest := contents[position..];
      position := |contents|;
    }

    /** `Seek(offset, SeekOrigin.Begin)`. */
    method Seek(offset: nat)
      requires offset <= |contents|
      modifies this
      ensures Valid() && position == offset
    {
      position := offset;
    }
  }
}
