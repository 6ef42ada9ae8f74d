/** The byte buffer of a connection. */
module Buffer {

  type Byte = x: int | 0 <= x < 256

  const NUL: Byte := 0

  /** What a C string function sees of some bytes: those before the first NUL. */
  function UpToNul(s: seq<Byte>): (r: seq<Byte>)
    ensures r <= s && NUL !in r
    ensures |r| < |s| ==> s[|r|] == NUL
  {
    if s == [] || s[0] == NUL then [] else [s[0]] + UpToNul(s[1..])
  }

  lemma UpToNulKeepsAll(s: seq<Byte>)
    ensures UpToNul(s) == s <==> NUL !in s
  {
  }

  class Buffer {
    var buf: seq<Byte>

    constructor ()
      ensures buf == []
    {
      buf := [];
    }

    method Append(str: seq<Byte>, size: nat)
      requires size <= |str|
      modifies this
      ensures buf == old(buf) + UpToNul(str[..size])
    {
      var i := 0;
      while i < size
        invariant 0 <= i <= size
        invariant NUL !in str[..i]
        invariant buf == old(buf) + str[..i]
      {
        if str[i] == NUL {
          break;
        }
        buf := buf + [str[i]];
        i := i + 1;
      }
      CutAtNul(str[..size], i);
    }

    /** Everything before the first NUL. */
    method SetBuf(str: seq<Byte>)
      modifies this
      ensures buf <= str && NUL !in buf
      ensures |buf| < |str| ==> str[|buf|] == NUL
    {
      buf := UpToNul(str);
    }

    method ClearBuffer()
      modifies this
      ensures buf == []
    {
      buf := [];
    }
  }

  lemma CutAtNul(s: seq<Byte>, i: nat)
    requires i <= |s| && NUL !in s[..i] && (i < |s| ==> s[i] == NUL)
    ensures UpToNul(s) == s[..i]
  {
  }
}
