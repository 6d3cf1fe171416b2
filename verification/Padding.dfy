/** The 256-byte padding of chat-front/src/crypto/envelope.ts. A text is its UTF-8 bytes. */
module Padding {
  import opened Wrappers

  const PAD_BUCKET: nat := 256
  const MAX_BODY: nat := 0xffff

  predicate IsBytes(s: seq<nat>) {
    forall i :: 0 <= i < |s| ==> s[i] < 256
  }

  datatype PadError = TooLong | CorruptPadding

  function Zeros(n: nat): (z: seq<nat>)
    ensures |z| == n && forall i :: 0 <= i < n ==> z[i] == 0
  {
    seq(n, i => 0)
  }

  /** Rounded up to whole buckets, and never less than one. */
  function Total(n: nat): nat {
    var up := (n + 2 + PAD_BUCKET - 1) / PAD_BUCKET * PAD_BUCKET;
    if up < PAD_BUCKET then PAD_BUCKET else up
  }

  /** Two length bytes, high one first, the body, zeros to the end of the bucket. */
  function Padded(body: seq<nat>): (padded: seq<nat>)
    ensures |padded| == Total(|body|)
  {
    [|body| / 256 % 256, |body| % 256] + body + Zeros(Total(|body|) - |body| - 2)
  }

  method Pad(body: seq<nat>) returns (r: Result<seq<nat>, PadError>)
    ensures r == if |body| > MAX_BODY then Err(TooLong) else Ok(Padded(body))
  {
    if |body| > MAX_BODY {
      return Err(TooLong);
    }
    var total := Total(|body|);
    var out := new nat[total](_ => 0);
    out[0] := |body| / 256 % 256;
    out[1] := |body| % 256;
    forall i | 0 <= i < |body| {
      out[2 + i] := body[i];
    }
    assert out[..] == Padded(body);
    r := Ok(out[..]);
  }

  function Unpad(padded: seq<nat>): Result<seq<nat>, PadError> {
    if |padded| < 2 then Err(CorruptPadding)
    else
      var len := padded[0] * 256 + padded[1];
      if len + 2 > |padded| then Err(CorruptPadding) else Ok(padded[2..2 + len])
  }

  /** Every body up to 65535 bytes comes back. */
  lemma UnpadPad(body: seq<nat>)
    requires |body| <= MAX_BODY
    ensures Unpad(Padded(body)) == Ok(body)
  {
    var padded := Padded(body);
    assert padded[0] * 256 + padded[1] == |body|;
    assert padded[2..2 + |body|] == body;
  }

  /** The padded length is the least positive multiple of 256 that holds the body and its two length bytes. */
  lemma LeastBucket(body: seq<nat>, k: nat)
    ensures |Padded(body)| % PAD_BUCKET == 0 && |Padded(body)| >= |body| + 2
    ensures k * PAD_BUCKET >= |body| + 2 ==> k * PAD_BUCKET >= |Padded(body)|
  {
  }

  /** The layout on the wire: the length in two bytes, high one first, then the body, then zeros only. */
  lemma Layout(body: seq<nat>)
    requires |body| <= MAX_BODY
    ensures var padded := Padded(body);
            && 256 * padded[0] + padded[1] == |body| && padded[2..2 + |body|] == body
            && forall i :: 2 + |body| <= i < |padded| ==> padded[i] == 0
  {
  }

  /** Every cell of the buffer is a byte. */
  lemma PaddedIsBytes(body: seq<nat>)
    requires IsBytes(body)
    ensures IsBytes(Padded(body))
  {
  }

  lemma TotalIs(n: nat)
    ensures Total(n) == ((n + 1) / PAD_BUCKET + 1) * PAD_BUCKET
  {
    var q, r := (n + 1) / PAD_BUCKET, (n + 1) % PAD_BUCKET;
    assert n + 1 == q * PAD_BUCKET + r;
    assert (n + 2 + PAD_BUCKET - 1) / PAD_BUCKET == q + 1;
  }

  /** All that the padded length tells is the bucket. */
  lemma LengthTellsBucket(a: seq<nat>, b: seq<nat>)
    ensures |Padded(a)| == |Padded(b)| <==> (|a| + 1) / PAD_BUCKET == (|b| + 1) / PAD_BUCKET
  {
    TotalIs(|a|);
    TotalIs(|b|);
  }
}
