/**
 * The binary-content decision `is_binary` (lmpack/lm_packer.py): a MIME guess made from the
 * file name decides when there is one; otherwise the first bytes of the file are read and the
 * file counts as binary when one of them is zero.
 */
module BinarySniff {
  import opened Wrappers
  import opened Strings

  newtype byte = x: int | 0 <= x < 256

  /** How many bytes the sniff reads from the start of the file. */
  const SNIFF_SIZE: nat := 1024

  function Min(a: nat, b: nat): nat { if a <= b then a else b }

  /** What `f.read(SNIFF_SIZE)` returns for a file whose bytes are `data`. */
  function Chunk(data: seq<byte>): (c: seq<byte>)
    ensures |c| == Min(SNIFF_SIZE, |data|)
    ensures c <= data
  {
    data[..Min(SNIFF_SIZE, |data|)]
  }

  /**
   * `mime` is the type `mimetypes.guess_type` found (None when it found none); `raw` is the
   * file as the sniff's `open` sees it, None when that `open` raises. The result is None
   * exactly when the exception escapes, which only happens when the file had to be read.
   */
  function IsBinary(mime: Option<string>, raw: Option<seq<byte>>): (r: Option<bool>)
    ensures mime.Some? ==> r == Some(!StartsWith(mime.value, "text"))
    ensures mime.None? ==> (r.Some? <==> raw.Some?)
    ensures mime.None? && raw.Some? ==>
      (r.value <==> exists i :: 0 <= i < |raw.value| && i < SNIFF_SIZE && raw.value[i] == 0)
  {
    if mime.Some? then Some(!StartsWith(mime.value, "text"))
    else if raw.None? then None
    else Some(0 in Chunk(raw.value))
  }

  /** With a MIME guess the bytes of the file play no part, not even whether it can be opened. */
  lemma MimeDecides(mime: string, a: Option<seq<byte>>, b: Option<seq<byte>>)
    ensures IsBinary(Some(mime), a) == IsBinary(Some(mime), b)
    ensures IsBinary(Some(mime), a).Some?
  {
  }

  /** Without a MIME guess only the first SNIFF_SIZE bytes matter. */
  lemma OnlyPrefixMatters(a: seq<byte>, b: seq<byte>)
    requires Chunk(a) == Chunk(b)
    ensures IsBinary(None, Some(a)) == IsBinary(None, Some(b))
  {
  }

  /** A zero byte after the sniffed prefix does not make a file binary. */
  lemma LateZeroIgnored(prefix: seq<byte>, tail: seq<byte>)
    requires |prefix| == SNIFF_SIZE && 0 !in prefix
    ensures IsBinary(None, Some(prefix + tail)) == Some(false)
  {
    assert Chunk(prefix + tail) == prefix;
  }
}
