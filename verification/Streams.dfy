/** The part of std::istream that the codecs use: reading past the end sets the end-of-file flag. */
module Streams {
  class InputStream<X> {
    const data: seq<X>
    var pos: nat
    var eof: bool

    predicate Valid()
      reads this
    {
      pos <= |data| && (eof ==> pos == |data|)
    }

    constructor (data: seq<X>)
      ensures Valid() && this.data == data && pos == 0 && !eof
    {
      this.data := data;
      pos, eof := 0, false;
    }

    // in.get(c): at the end, c keeps its value.
    method Get(c: X) returns (v: X)
      requires Valid()
      modifies this
      ensures Valid()
      ensures old(pos) < |data| ==> v == data[old(pos)] && pos == old(pos) + 1 && eof == old(eof)
      ensures old(pos) == |data| ==> v == c && pos == old(pos) && eof
    {
      if eof || pos == |data| {
        eof := true;
        v := c;
      } else {
        v := data[pos];
        pos := pos + 1;
      }
    }

    // in.read(buffer, n) and in.gcount(): the bytes read.
    method Read(n: nat) returns (bytes: seq<X>)
      requires Valid()
      modifies this
      ensures Valid()
      ensures old(pos) <= pos && bytes == data[old(pos)..pos]
      ensures if |data| - old(pos) < n || old(eof) then pos == |data| && eof else pos == old(pos) + n && !eof
    {
      if eof || |data| - pos < n {
        bytes := data[pos..];
        pos, eof := |data|, true;
      } else {
        bytes := data[pos..pos + n];
        pos := pos + n;
      }
    }
  }
}
