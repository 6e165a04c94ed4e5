/** One download task, and the callback that stores its response body (Fetcher/CrawlContext.h and Fetcher/Fetcher.cpp). */
module CrawlContext {
  import opened Names

  const MAX_BODY_SIZE := 4096 * 1024

  /** What write_body_cb updates. */
  datatype Body = Body(bytes: seq<Byte>, truncated: bool)

  /** The limit is checked before a chunk is stored, so the chunk that crosses it is still kept. */
  function Receive(b: Body, chunk: seq<Byte>): Body {
    if |b.bytes| > MAX_BODY_SIZE then b.(truncated := true) else b.(bytes := b.bytes + chunk)
  }

  function ReceiveAll(chunks: seq<seq<Byte>>): Body {
    if chunks == [] then Body([], false) else Receive(ReceiveAll(Front(chunks)), Last(chunks))
  }

  function Concat(chunks: seq<seq<Byte>>): seq<Byte> {
    if chunks == [] then [] else Concat(Front(chunks)) + Last(chunks)
  }

  /**
   The body is a prefix of the chunks, `kept` of them. No proper prefix of those exceeds the limit, and the
   body is marked truncated exactly when chunks were dropped, which happens only above the limit.
   */
  lemma {:induction false} BodyIsAPrefixOfTheStream(chunks: seq<seq<Byte>>) returns (kept: nat)
    ensures kept <= |chunks|
    ensures ReceiveAll(chunks).bytes == Concat(chunks[..kept])
    ensures ReceiveAll(chunks).truncated <==> kept < |chunks|
    ensures kept < |chunks| ==> |Concat(chunks[..kept])| > MAX_BODY_SIZE
    ensures forall j | 0 <= j < kept :: |Concat(chunks[..j])| <= MAX_BODY_SIZE
  {
    if chunks == [] {
      kept := 0;
    } else {
      kept := BodyIsAPrefixOfTheStream(Front(chunks));
      assert forall j | 0 <= j <= |Front(chunks)| :: Front(chunks)[..j] == chunks[..j];
      if |ReceiveAll(Front(chunks)).bytes| <= MAX_BODY_SIZE {
        assert Front(chunks)[..kept] == Front(chunks);
        kept := |chunks|;
        assert chunks[..kept] == chunks;
      }
    }
  }

  /** Nothing is missing unless the body says so, and the body exceeds the limit by less than its last chunk. */
  lemma {:induction false} UntruncatedBodyIsComplete(chunks: seq<seq<Byte>>)
    ensures !ReceiveAll(chunks).truncated ==> ReceiveAll(chunks).bytes == Concat(chunks)
    ensures |ReceiveAll(chunks).bytes| > MAX_BODY_SIZE ==>
              exists j | 0 < j <= |chunks| ::
                |ReceiveAll(chunks).bytes| <= MAX_BODY_SIZE + |chunks[j - 1]| && ReceiveAll(chunks).bytes == Concat(chunks[..j])
  {
    var kept := BodyIsAPrefixOfTheStream(chunks);
    assert chunks[..|chunks|] == chunks;
    if |ReceiveAll(chunks).bytes| > MAX_BODY_SIZE {
      assert Front(chunks[..kept]) == chunks[..kept - 1];
      assert Concat(chunks[..kept]) == Concat(chunks[..kept - 1]) + chunks[kept - 1];
    }
  }

  /** Once truncated, further chunks change nothing. */
  lemma {:induction false} TruncatedBodyIsFinal(chunks: seq<seq<Byte>>, more: seq<seq<Byte>>)
    requires ReceiveAll(chunks).truncated
    ensures ReceiveAll(chunks + more) == ReceiveAll(chunks)
  {
    if more == [] {
      assert chunks + more == chunks;
    } else {
      assert Front(chunks + more) == chunks + Front(more);
      TruncatedBodyIsFinal(chunks, Front(more));
      var kept := BodyIsAPrefixOfTheStream(chunks);
    }
  }

  /** A body of up to four megabytes is kept whole and unmarked, however it is cut into chunks. */
  lemma SmallBodyIsComplete(chunks: seq<seq<Byte>>)
    requires |Concat(chunks)| <= 4194304
    ensures ReceiveAll(chunks) == Body(Concat(chunks), false)
  {
    var kept := BodyIsAPrefixOfTheStream(chunks);
    assert chunks[..|chunks|] == chunks;
    ConcatPrefix(chunks, kept);
  }

  /** Once more than that has come, a further chunk is dropped. */
  lemma LargeBodyIsCut(chunks: seq<seq<Byte>>, chunk: seq<Byte>)
    requires |ReceiveAll(chunks).bytes| > 4194304
    ensures ReceiveAll(chunks + [chunk]) == Body(ReceiveAll(chunks).bytes, true)
  {
    assert Front(chunks + [chunk]) == chunks;
  }

  lemma {:induction false} ConcatPrefix(chunks: seq<seq<Byte>>, k: nat)
    requires k <= |chunks|
    ensures |Concat(chunks[..k])| <= |Concat(chunks)|
  {
    if k < |chunks| {
      assert Front(chunks)[..k] == chunks[..k];
      ConcatPrefix(Front(chunks), k);
    } else {
      assert chunks[..k] == chunks;
    }
  }

  class CrawlContext {
    const host: Host
    var ip: Option<Ip>
    var done: bool
    var error: string
    var bytes: seq<Byte>
    var truncated: bool

    constructor (host: Host)
      ensures this.host == host && ip == None && !done && error == "" && GetBody() == Body([], false)
    {
      this.host := host;
      ip, done, error, bytes, truncated := None, false, "", [], false;
    }

    function GetBody(): Body
      reads this
    {
      Body(bytes, truncated)
    }

    /** Always claims to have taken the whole chunk, so the transfer goes on. */
    method WriteBody(chunk: seq<Byte>) returns (taken: nat)
      modifies this`bytes, this`truncated
      ensures taken == |chunk| && GetBody() == Receive(old(GetBody()), chunk)
    {
      if |bytes| > MAX_BODY_SIZE {
        truncated := true;
      } else {
        bytes := bytes + chunk;
      }
      taken := |chunk|;
    }
  }
}
