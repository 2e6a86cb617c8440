/** Reading a response body up to a size limit. */
module CappedStream {
  import opened Wrappers

  type Byte = bv8

  /** A streamed chunk, or the transport's failure. */
  type Chunk = Result<seq<Byte>, ()>

  datatype FetchError = TooLarge(got: nat, max: nat) | Transport

  function Min(a: nat, b: nat): nat { if a < b then a else b }

  /** The bytes of the chunks before the first failure. */
  function Body(chunks: seq<Chunk>): seq<Byte> {
    if chunks == [] || chunks[0].Err? then [] else chunks[0].value + Body(chunks[1..])
  }

  predicate Breaks(chunks: seq<Chunk>) {
    exists i :: 0 <= i < |chunks| && chunks[i].Err?
  }

  lemma TailUnbroken(chunks: seq<Chunk>)
    requires chunks != [] && !Breaks(chunks)
    ensures !Breaks(chunks[1..])
  {
  }

  lemma {:induction false} BodyAppend(chunks: seq<Chunk>, chunk: Chunk)
    requires !Breaks(chunks)
    ensures Body(chunks + [chunk]) == Body(chunks) + if chunk.Ok? then chunk.value else []
  {
    if chunks == [] {
      assert (chunks + [chunk])[1..] == [];
    } else {
      assert (chunks + [chunk])[1..] == chunks[1..] + [chunk];
      TailUnbroken(chunks);
      BodyAppend(chunks[1..], chunk);
    }
  }

  lemma {:induction false} BodyExtends(chunks: seq<Chunk>, n: nat)
    requires n <= |chunks| && !Breaks(chunks[..n])
    ensures Body(chunks[..n]) <= Body(chunks)
    ensures !Breaks(chunks) && n == |chunks| ==> Body(chunks[..n]) == Body(chunks)
  {
    if n > 0 {
      assert chunks[..n][0] == chunks[0] && chunks[..n][1..] == chunks[1..][..n - 1];
      TailUnbroken(chunks[..n]);
      BodyExtends(chunks[1..], n - 1);
    }
  }

  /**
   * However the body is cut into chunks, the first max + 1 bytes of it are kept and no more are
   * ever buffered; the stream has exceeded exactly when the body, up to any failure, is longer than
   * `max`. A failure is reported only when it comes before that.
   */
  method ReadStreamCapped(chunks: seq<Chunk>, max: nat) returns (result: Result<(seq<Byte>, bool), ()>)
    ensures result.Err? <==> Breaks(chunks) && |Body(chunks)| <= max
    ensures result.Ok? ==>
              && result.value.0 == Body(chunks)[..Min(|Body(chunks)|, max + 1)]
              && (result.value.1 <==> |Body(chunks)| > max)
  {
    var cap := max + 1;
    var buf, total := [], 0;
    ghost var body := Body(chunks);
    for i := 0 to |chunks|
      invariant !Breaks(chunks[..i])
      invariant total == |Body(chunks[..i])| <= max && buf == Body(chunks[..i])
    {
      assert chunks[..i + 1] == chunks[..i] + [chunks[i]];
      BodyAppend(chunks[..i], chunks[i]);
      if chunks[i].Err? {
        BodyEndsAt(chunks, i);
        return Err(());
      }
      var bytes := chunks[i].value;
      total := total + |bytes|;
      buf := buf + bytes[..Min(|bytes|, cap - |buf|)];
      assert !Breaks(chunks[..i + 1]) by {
        assert forall j :: 0 <= j < i ==> chunks[..i][j] == chunks[j];
      }
      BodyExtends(chunks, i + 1);
      if total >= cap {
        return Ok((buf, true));
      }
    }
    assert chunks[..|chunks|] == chunks;
    return Ok((buf, false));
  }

  lemma {:induction false} BodyEndsAt(chunks: seq<Chunk>, n: nat)
    requires n < |chunks| && chunks[n].Err? && !Breaks(chunks[..n])
    ensures Body(chunks) == Body(chunks[..n])
  {
    if n > 0 {
      assert chunks[..n][0] == chunks[0] && chunks[..n][1..] == chunks[1..][..n - 1];
      TailUnbroken(chunks[..n]);
      BodyEndsAt(chunks[1..], n - 1);
    }
  }

  /**
   * A body with an absent or truthful Content-Length is accepted exactly when it has at most `max`
   * bytes, and then returned whole, whatever the chunking.
   */
  method FetchCapped(contentLength: Option<nat>, chunks: seq<Chunk>, max: nat) returns (result: Result<seq<Byte>, FetchError>)
    ensures result.Ok? ==> result.value == Body(chunks) && |result.value| <= max && !Breaks(chunks)
    ensures !Breaks(chunks) && (contentLength.Some? ==> contentLength.value == |Body(chunks)|) ==>
              result == if |Body(chunks)| <= max then Ok(Body(chunks))
                        else Err(TooLarge(if contentLength.Some? then contentLength.value else max + 1, max))
    ensures (result.Ok? || result == Err(Transport)) && contentLength.Some? ==> contentLength.value <= max
  {
    if contentLength.Some? && contentLength.value > max {
      return Err(TooLarge(contentLength.value, max));
    }
    var read := ReadStreamCapped(chunks, max);
    if read.Err? {
      return Err(Transport);
    }
    if read.value.1 {
      return Err(TooLarge(|read.value.0|, max));
    }
    return Ok(read.value.0);
  }
}
